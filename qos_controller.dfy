/**
 * The QoS controller: a loop that polls the alert marker and, on each change,
 * installs the HTB+SFQ plan on the transit routers in both directions or
 * clears traffic control from every router interface.
 */
module QosController {
  import opened Wrappers
  import opened TrafficControl
  import opened RuleCompiler

  /** A router interface: its name and the `bw` parameter of its link, if any. */
  datatype Interface = Interface(name: string, bw: Option<nat>)

  /** A router and its interfaces, in the order the router lists them. */
  datatype Router = Router(name: string, intfs: seq<Interface>)

  /** The interfaces of a router toward the cloud host (`forward`) and toward the users (`backward`). */
  datatype Directions = Directions(forward: seq<string>, backward: seq<string>)

  /** The interfaces the apply sweep shapes, per transit router. */
  const InterfacesMap: map<string, Directions> := map[
    "r_trans1" := Directions(["r_trans1-eth1"], ["r_trans1-eth0"]),
    "r_trans2" := Directions(["r_trans2-eth1"], ["r_trans2-eth0"]),
    "r_trans3" := Directions(["r_trans3-eth2"], ["r_trans3-eth0", "r_trans3-eth1"]),
    "r_trans4" := Directions(["r_trans4-eth1"], ["r_trans4-eth0"])
  ]

  /** An interface of the network, named by its router and device. */
  datatype IfaceKey = IfaceKey(router: string, dev: string)

  /** The traffic-control configuration of every interface of the network. */
  type Config = map<IfaceKey, IfaceState>

  /** A command run on a router's shell (`roteador.cmd`). */
  datatype Issued = Issued(router: string, cmd: Command)

  function Key(x: Issued): IfaceKey {
    IfaceKey(x.router, x.cmd.dev)
  }

  /** The router's interface called `name` (`roteador.intf(name)`), if it has one. */
  function Lookup(intfs: seq<Interface>, name: string): (r: Option<Interface>)
    ensures r.Some? ==> r.value in intfs && r.value.name == name
    ensures r.None? ==> forall i :: i in intfs ==> i.name != name
    decreases |intfs|
  {
    if intfs == [] then None
    else if intfs[0].name == name then Some(intfs[0])
    else
      var r := Lookup(intfs[1..], name);
      assert forall i :: i in intfs ==> i == intfs[0] || i in intfs[1..];
      r
  }

  /**
   * The effect of one command on the interface it names; a command naming an
   * interface outside the configuration `c` changes nothing.
   */
  function Issue(c: Config, x: Issued): (r: Config)
    ensures r.Keys == c.Keys
  {
    if Key(x) in c then c[Key(x) := Execute(c[Key(x)], x.cmd.op)] else c
  }

  /** The effect of a list of commands, in order. */
  function IssueAll(c: Config, xs: seq<Issued>): (r: Config)
    ensures r.Keys == c.Keys
    decreases |xs|
  {
    if xs == [] then c else Issue(IssueAll(c, xs[..|xs| - 1]), xs[|xs| - 1])
  }

  /** The operations of `xs` that reach interface `k`, in order. */
  function OpsOn(xs: seq<Issued>, k: IfaceKey): seq<TcOp>
    decreases |xs|
  {
    if xs == [] then []
    else OpsOn(xs[..|xs| - 1], k) + (if Key(xs[|xs| - 1]) == k then [xs[|xs| - 1].cmd.op] else [])
  }

  /** Last step of an execution on one interface. */
  lemma ExecuteAllSnoc(st: IfaceState, ops: seq<TcOp>, op: TcOp)
    ensures ExecuteAll(st, ops + [op]) == Execute(ExecuteAll(st, ops), op)
  {
    assert (ops + [op])[..|ops|] == ops;
  }

  /** Each interface sees exactly the operations addressed to it; no interface appears or disappears. */
  lemma {:induction false} IssueAllAt(c: Config, xs: seq<Issued>, k: IfaceKey)
    ensures IssueAll(c, xs).Keys == c.Keys
    ensures k in c ==> IssueAll(c, xs)[k] == ExecuteAll(c[k], OpsOn(xs, k))
    decreases |xs|
  {
    if xs != [] {
      var n := |xs| - 1;
      IssueAllAt(c, xs[..n], k);
      assert OpsOn(xs, k) == OpsOn(xs[..n], k) + (if Key(xs[n]) == k then [xs[n].cmd.op] else []);
      var prev := IssueAll(c, xs[..n]);
      assert IssueAll(c, xs) == Issue(prev, xs[n]);
      if k in c && Key(xs[n]) == k {
        ExecuteAllSnoc(c[k], OpsOn(xs[..n], k), xs[n].cmd.op);
      } else if k in c {
        assert OpsOn(xs, k) == OpsOn(xs[..n], k);
      }
    }
  }

  lemma {:induction false} IssueAllAppend(c: Config, a: seq<Issued>, b: seq<Issued>)
    ensures IssueAll(c, a + b) == IssueAll(IssueAll(c, a), b)
    decreases |b|
  {
    if b == [] {
      assert a + b == a;
    } else {
      assert (a + b)[..|a + b| - 1] == a + b[..|b| - 1];
      IssueAllAppend(c, a, b[..|b| - 1]);
    }
  }

  lemma {:induction false} OpsOnAppend(a: seq<Issued>, b: seq<Issued>, k: IfaceKey)
    ensures OpsOn(a + b, k) == OpsOn(a, k) + OpsOn(b, k)
    decreases |b|
  {
    if b == [] {
      assert a + b == a;
    } else {
      assert (a + b)[..|a + b| - 1] == a + b[..|b| - 1];
      OpsOnAppend(a, b[..|b| - 1], k);
    }
  }

  /** The commands `cmds`, run on router `router`. */
  function On(router: string, cmds: seq<Command>): seq<Issued>
    decreases |cmds|
  {
    if cmds == [] then [] else On(router, cmds[..|cmds| - 1]) + [Issued(router, cmds[|cmds| - 1])]
  }

  /** Commands for one device reach that device of the router only, with all their operations. */
  lemma {:induction false} OnOneDevice(router: string, dev: string, cmds: seq<Command>, k: IfaceKey)
    requires forall i :: 0 <= i < |cmds| ==> cmds[i].dev == dev
    ensures OpsOn(On(router, cmds), k) == if k == IfaceKey(router, dev) then seq(|cmds|, i requires 0 <= i < |cmds| => cmds[i].op) else []
    decreases |cmds|
  {
    if cmds != [] {
      var n := |cmds| - 1;
      OnOneDevice(router, dev, cmds[..n], k);
      assert On(router, cmds) == On(router, cmds[..n]) + [Issued(router, cmds[n])];
      OpsOnAppend(On(router, cmds[..n]), [Issued(router, cmds[n])], k);
      assert OpsOn([Issued(router, cmds[n])], k) == if k == IfaceKey(router, dev) then [cmds[n].op] else [];
    }
  }

  // ---------------------------------------------------------------------------
  // The apply sweep (aplicar_regras_qos_bidirecional, aplicar_htb_sfq_em_interface)
  // ---------------------------------------------------------------------------

  /** The commands for one interface: none when the router has no interface of that name. */
  function InterfacePlan(r: Router, name: string, field: PortField): seq<Issued> {
    match Lookup(r.intfs, name)
    case None => []
    case Some(iface) => On(r.name, Compile(iface.name, iface.bw, field))
  }

  /** The commands for the interfaces `names` of `r`, in order. */
  function InterfacesPlan(r: Router, names: seq<string>, field: PortField): seq<Issued>
    decreases |names|
  {
    if names == [] then []
    else InterfacesPlan(r, names[..|names| - 1], field) + InterfacePlan(r, names[|names| - 1], field)
  }

  /** The commands for a router: forward interfaces by `dport`, then backward ones by `sport`. */
  function RouterPlan(r: Router, m: map<string, Directions>): seq<Issued> {
    if r.name in m then InterfacesPlan(r, m[r.name].forward, DstPort) + InterfacesPlan(r, m[r.name].backward, SrcPort)
    else []
  }

  /** The commands of the apply sweep, router by router. */
  function ApplyPlan(rs: seq<Router>, m: map<string, Directions>): seq<Issued>
    decreases |rs|
  {
    if rs == [] then [] else ApplyPlan(rs[..|rs| - 1], m) + RouterPlan(rs[|rs| - 1], m)
  }

  /** Interface `k` is one the apply sweep shapes: a mapped interface that its router has. */
  ghost predicate Swept(rs: seq<Router>, m: map<string, Directions>, k: IfaceKey) {
    exists r :: r in rs && Covers(r, m, k)
  }

  /** Router `r` is mapped, names `k`'s device in one of its directions and has that interface. */
  predicate Covers(r: Router, m: map<string, Directions>, k: IfaceKey) {
    r.name == k.router && r.name in m &&
    (k.dev in m[r.name].forward || k.dev in m[r.name].backward) && Lookup(r.intfs, k.dev).Some?
  }

  /** The `bw` parameter of `r`'s interface `dev`; `None` also when `r` has no such interface. */
  function BwOf(r: Router, dev: string): Option<nat> {
    match Lookup(r.intfs, dev)
    case None => None
    case Some(iface) => iface.bw
  }

  /** The port field the sweep compiles device `dev` of `r` with: `sport` when it is listed backward, else `dport`. */
  function SweepField(r: Router, m: map<string, Directions>, dev: string): PortField {
    if r.name in m && dev in m[r.name].backward then SrcPort else DstPort
  }

  /**
   * The operations an interface receives from the sweep: none, or a run of full
   * plans whose first operation clears the root and whose result is the plan for
   * link bandwidth `bw` matching ports on `field`.
   */
  predicate PlanFor(ops: seq<TcOp>, bw: Option<nat>, field: PortField) {
    ops == [] || (ops[0].DeleteRoot? && ExecuteAll(Default, ops) == Installed(bw, field))
  }

  /** Like `PlanFor`, for some bandwidth and field. */
  ghost predicate PlansOnly(ops: seq<TcOp>) {
    ops == [] ||
    (ops[0].DeleteRoot? && exists bw: Option<nat>, field: PortField :: ExecuteAll(Default, ops) == Installed(bw, field))
  }

  /** Of two runs of plans, the later one decides what is installed. */
  lemma PlanForAppend(a: seq<TcOp>, b: seq<TcOp>, bw: Option<nat>, fa: PortField, fb: PortField)
    requires PlanFor(a, bw, fa) && PlanFor(b, bw, fb)
    ensures PlanFor(a + b, bw, if b == [] then fa else fb)
  {
    if a == [] {
      assert a + b == b;
    } else if b == [] {
      assert a + b == a;
    } else {
      ExecuteAllAppend(Default, a, b);
      ClearedFirst(ExecuteAll(Default, a), Default, b);
    }
  }

  lemma PlansOnlyAppend(a: seq<TcOp>, b: seq<TcOp>)
    requires PlansOnly(a) && PlansOnly(b)
    ensures PlansOnly(a + b)
  {
    if a == [] {
      assert a + b == b;
    } else if b == [] {
      assert a + b == a;
    } else {
      ExecuteAllAppend(Default, a, b);
      ClearedFirst(ExecuteAll(Default, a), Default, b);
    }
  }

  lemma PlanForPlansOnly(ops: seq<TcOp>, bw: Option<nat>, field: PortField)
    requires PlanFor(ops, bw, field)
    ensures PlansOnly(ops)
  {
  }

  /** One interface's commands reach only that interface, with the plan for its own link and `field`. */
  lemma InterfacePlanOps(r: Router, name: string, field: PortField, k: IfaceKey)
    ensures PlanFor(OpsOn(InterfacePlan(r, name, field), k), BwOf(r, k.dev), field)
    ensures OpsOn(InterfacePlan(r, name, field), k) != [] <==>
              k == IfaceKey(r.name, name) && Lookup(r.intfs, name).Some?
  {
    InterfaceReach(r, name, field, k);
    match Lookup(r.intfs, name)
    case None =>
    case Some(iface) =>
      var cmds := Compile(iface.name, iface.bw, field);
      OnOneDevice(r.name, iface.name, cmds, k);
      CompiledPlan(iface.name, iface.bw, field);
  }

  lemma InterfaceReach(r: Router, name: string, field: PortField, k: IfaceKey)
    ensures OpsOn(InterfacePlan(r, name, field), k) != [] <==>
              k == IfaceKey(r.name, name) && Lookup(r.intfs, name).Some?
  {
    match Lookup(r.intfs, name)
    case None =>
    case Some(iface) =>
      var cmds := Compile(iface.name, iface.bw, field);
      OnOneDevice(r.name, iface.name, cmds, k);
      CompiledPlan(iface.name, iface.bw, field);
  }

  /** The operations of an interface's compiled commands are one full plan, which clears the root first. */
  lemma CompiledPlan(dev: string, bwParam: Option<nat>, field: PortField)
    ensures var cmds := Compile(dev, bwParam, field);
      seq(|cmds|, i requires 0 <= i < |cmds| => cmds[i].op) == Plan(bwParam, field)
    ensures Plan(bwParam, field) != [] && Plan(bwParam, field)[0].DeleteRoot?
    ensures ExecuteAll(Default, Plan(bwParam, field)) == Installed(bwParam, field)
  {
    PlanShape(bwParam, field);
    PlanInstallsFromAnyState(Default, bwParam, field);
  }

  lemma InterfacesPlanOps(r: Router, names: seq<string>, field: PortField, k: IfaceKey)
    ensures PlanFor(OpsOn(InterfacesPlan(r, names, field), k), BwOf(r, k.dev), field)
    ensures OpsOn(InterfacesPlan(r, names, field), k) != [] <==>
              k.router == r.name && k.dev in names && Lookup(r.intfs, k.dev).Some?
  {
    InterfacesPlanFor(r, names, field, k);
    InterfacesPlanReach(r, names, field, k);
  }

  lemma {:induction false} InterfacesPlanFor(r: Router, names: seq<string>, field: PortField, k: IfaceKey)
    ensures PlanFor(OpsOn(InterfacesPlan(r, names, field), k), BwOf(r, k.dev), field)
    decreases |names|
  {
    if names != [] {
      var n := |names| - 1;
      InterfacesPlanFor(r, names[..n], field, k);
      InterfacePlanOps(r, names[n], field, k);
      OpsOnAppend(InterfacesPlan(r, names[..n], field), InterfacePlan(r, names[n], field), k);
      PlanForAppend(OpsOn(InterfacesPlan(r, names[..n], field), k), OpsOn(InterfacePlan(r, names[n], field), k),
                    BwOf(r, k.dev), field, field);
    }
  }

  lemma {:induction false} InterfacesPlanReach(r: Router, names: seq<string>, field: PortField, k: IfaceKey)
    ensures OpsOn(InterfacesPlan(r, names, field), k) != [] <==>
              k.router == r.name && k.dev in names && Lookup(r.intfs, k.dev).Some?
    decreases |names|
  {
    if names != [] {
      var n := |names| - 1;
      InterfacesPlanReach(r, names[..n], field, k);
      InterfaceReach(r, names[n], field, k);
      OpsOnAppend(InterfacesPlan(r, names[..n], field), InterfacePlan(r, names[n], field), k);
      assert k.dev in names <==> k.dev in names[..n] || k.dev == names[n] by {
        assert names == names[..n] + [names[n]];
      }
    }
  }

  /** A router's commands: its forward interfaces get the `dport` plan, its backward ones the `sport` plan. */
  lemma RouterPlanOps(r: Router, m: map<string, Directions>, k: IfaceKey)
    ensures PlanFor(OpsOn(RouterPlan(r, m), k), BwOf(r, k.dev), SweepField(r, m, k.dev))
    ensures OpsOn(RouterPlan(r, m), k) != [] <==> Covers(r, m, k)
  {
    if r.name in m {
      var fw := InterfacesPlan(r, m[r.name].forward, DstPort);
      var bw := InterfacesPlan(r, m[r.name].backward, SrcPort);
      InterfacesPlanOps(r, m[r.name].forward, DstPort, k);
      InterfacesPlanOps(r, m[r.name].backward, SrcPort, k);
      OpsOnAppend(fw, bw, k);
      PlanForAppend(OpsOn(fw, k), OpsOn(bw, k), BwOf(r, k.dev), DstPort, SrcPort);
      if OpsOn(bw, k) == [] && k.dev in m[r.name].backward {
        assert OpsOn(fw, k) == [];
      }
    }
  }

  lemma {:induction false} ApplyPlanOps(rs: seq<Router>, m: map<string, Directions>, k: IfaceKey)
    ensures PlansOnly(OpsOn(ApplyPlan(rs, m), k))
    ensures OpsOn(ApplyPlan(rs, m), k) != [] <==> Swept(rs, m, k)
    decreases |rs|
  {
    if rs != [] {
      var n := |rs| - 1;
      ApplyPlanOps(rs[..n], m, k);
      RouterPlanOps(rs[n], m, k);
      PlanForPlansOnly(OpsOn(RouterPlan(rs[n], m), k), BwOf(rs[n], k.dev), SweepField(rs[n], m, k.dev));
      OpsOnAppend(ApplyPlan(rs[..n], m), RouterPlan(rs[n], m), k);
      PlansOnlyAppend(OpsOn(ApplyPlan(rs[..n], m), k), OpsOn(RouterPlan(rs[n], m), k));
      SweptSnoc(rs, m, k);
    }
  }

  lemma SweptSnoc(rs: seq<Router>, m: map<string, Directions>, k: IfaceKey)
    requires rs != []
    ensures Swept(rs, m, k) <==> Swept(rs[..|rs| - 1], m, k) || Covers(rs[|rs| - 1], m, k)
  {
    var n := |rs| - 1;
    assert rs == rs[..n] + [rs[n]];
    if Swept(rs, m, k) {
      var r :| r in rs && Covers(r, m, k);
      assert r in rs[..n] || r == rs[n];
    }
  }

  /** No router of `rs` other than `r` carries `r`'s name (Mininet node names are unique). */
  predicate OnlyOneNamed(rs: seq<Router>, r: Router) {
    forall j :: 0 <= j < |rs| && rs[j].name == r.name ==> rs[j] == r
  }

  /** When `r` is the only router of its name, interface `k` of `r` receives the plan for its own link and direction. */
  lemma {:induction false} ApplyPlanFor(rs: seq<Router>, m: map<string, Directions>, k: IfaceKey, r: Router)
    requires r.name == k.router && OnlyOneNamed(rs, r)
    ensures PlanFor(OpsOn(ApplyPlan(rs, m), k), BwOf(r, k.dev), SweepField(r, m, k.dev))
    decreases |rs|
  {
    if rs != [] {
      var n := |rs| - 1;
      ApplyPlanFor(rs[..n], m, k, r);
      RouterPlanOps(rs[n], m, k);
      OpsOnAppend(ApplyPlan(rs[..n], m), RouterPlan(rs[n], m), k);
      PlanForAppend(OpsOn(ApplyPlan(rs[..n], m), k), OpsOn(RouterPlan(rs[n], m), k),
                    BwOf(r, k.dev), SweepField(r, m, k.dev), SweepField(r, m, k.dev));
    }
  }

  /**
   * After the apply sweep every swept interface carries exactly one plan (never
   * two stacked): the plan for its own link's `bw`, matching `dport` when it is
   * listed forward and `sport` when it is listed backward. Every other interface
   * is as it was.
   */
  lemma ApplyClassifies(c: Config, rs: seq<Router>, m: map<string, Directions>, k: IfaceKey)
    requires k in c
    ensures IssueAll(c, ApplyPlan(rs, m)).Keys == c.Keys
    ensures Swept(rs, m, k) ==> exists bw: Option<nat>, field: PortField :: IssueAll(c, ApplyPlan(rs, m))[k] == Installed(bw, field)
    ensures forall r :: r in rs && Covers(r, m, k) && OnlyOneNamed(rs, r) ==>
              IssueAll(c, ApplyPlan(rs, m))[k] == Installed(BwOf(r, k.dev), SweepField(r, m, k.dev))
    ensures !Swept(rs, m, k) ==> IssueAll(c, ApplyPlan(rs, m))[k] == c[k]
  {
    var ops := OpsOn(ApplyPlan(rs, m), k);
    IssueAllAt(c, ApplyPlan(rs, m), k);
    ApplyPlanOps(rs, m, k);
    if ops != [] {
      ClearedFirst(c[k], Default, ops);
    }
    forall r | r in rs && Covers(r, m, k) && OnlyOneNamed(rs, r)
      ensures IssueAll(c, ApplyPlan(rs, m))[k] == Installed(BwOf(r, k.dev), SweepField(r, m, k.dev))
    {
      ApplyPlanFor(rs, m, k, r);
    }
  }

  /** Applying twice in a row leaves the network as applying once (the plan begins with a clear). */
  lemma ApplyIdempotent(c: Config, rs: seq<Router>, m: map<string, Directions>)
    ensures IssueAll(IssueAll(c, ApplyPlan(rs, m)), ApplyPlan(rs, m)) == IssueAll(c, ApplyPlan(rs, m))
  {
    var once := IssueAll(c, ApplyPlan(rs, m));
    var twice := IssueAll(once, ApplyPlan(rs, m));
    forall k | k in c
      ensures k in once && k in twice && twice[k] == once[k]
    {
      var ops := OpsOn(ApplyPlan(rs, m), k);
      IssueAllAt(c, ApplyPlan(rs, m), k);
      IssueAllAt(once, ApplyPlan(rs, m), k);
      ApplyPlanOps(rs, m, k);
      if ops != [] {
        ClearedFirst(once[k], c[k], ops);
      }
    }
    IssueAllAt(c, ApplyPlan(rs, m), IfaceKey("", ""));
    IssueAllAt(once, ApplyPlan(rs, m), IfaceKey("", ""));
  }

  // ---------------------------------------------------------------------------
  // The remove sweep (remover_regras_qos)
  // ---------------------------------------------------------------------------

  /** Python's `sub in s` on strings. */
  predicate Contains(s: string, sub: string)
    decreases |s|
  {
    |sub| <= |s| && (s[..|sub|] == sub || Contains(s[1..], sub))
  }

  /** The interfaces whose name does not contain `lo`, in order. */
  function NonLoopback(intfs: seq<Interface>): (r: seq<Interface>)
    ensures forall i :: i in r <==> i in intfs && !Contains(i.name, "lo")
    decreases |intfs|
  {
    if intfs == [] then []
    else
      assert forall i :: i in intfs <==> i == intfs[0] || i in intfs[1..];
      (if Contains(intfs[0].name, "lo") then [] else [intfs[0]]) + NonLoopback(intfs[1..])
  }

  /**
   * The filter keeps the order of the list: filtering a concatenation is the
   * concatenation of the filtered parts, and a single interface is kept exactly
   * when its name does not contain `lo`.
   */
  lemma {:induction false} NonLoopbackAppend(a: seq<Interface>, b: seq<Interface>)
    ensures NonLoopback(a + b) == NonLoopback(a) + NonLoopback(b)
    decreases |a|
  {
    if a == [] {
      assert a + b == b;
    } else {
      var h := Kept(a[0]);
      calc {
        NonLoopback(a + b);
        { NonLoopbackUnfold(a + b); assert (a + b)[0] == a[0] && (a + b)[1..] == a[1..] + b; }
        h + NonLoopback(a[1..] + b);
        { NonLoopbackAppend(a[1..], b); }
        h + (NonLoopback(a[1..]) + NonLoopback(b));
        { ConcatAssoc(h, NonLoopback(a[1..]), NonLoopback(b)); }
        (h + NonLoopback(a[1..])) + NonLoopback(b);
        { NonLoopbackUnfold(a); }
        NonLoopback(a) + NonLoopback(b);
      }
    }
  }

  /** What the filter keeps of one interface. */
  function Kept(i: Interface): seq<Interface> {
    if Contains(i.name, "lo") then [] else [i]
  }

  /** One step of the filter: what it keeps of the first interface, then the rest. */
  lemma NonLoopbackUnfold(xs: seq<Interface>)
    requires xs != []
    ensures NonLoopback(xs) == Kept(xs[0]) + NonLoopback(xs[1..])
  {
  }

  lemma ConcatAssoc<T>(x: seq<T>, y: seq<T>, z: seq<T>)
    ensures x + (y + z) == (x + y) + z
  {
  }

  /** Each interface is kept as many times as the router lists it, unless its name contains `lo`. */
  lemma {:induction false} NonLoopbackCount(intfs: seq<Interface>)
    ensures forall i :: multiset(NonLoopback(intfs))[i] == if Contains(i.name, "lo") then 0 else multiset(intfs)[i]
    decreases |intfs|
  {
    if intfs != [] {
      NonLoopbackCount(intfs[1..]);
      assert intfs == [intfs[0]] + intfs[1..];
    }
  }

  lemma NonLoopbackOne(i: Interface)
    ensures NonLoopback([i]) == if Contains(i.name, "lo") then [] else [i]
  {
    assert [i][1..] == [];
  }

  /** One root clear per interface of `ifaces`, run on router `router`. */
  function ClearAll(router: string, ifaces: seq<Interface>): seq<Issued>
    decreases |ifaces|
  {
    if ifaces == [] then []
    else ClearAll(router, ifaces[..|ifaces| - 1]) + [Issued(router, Command(ifaces[|ifaces| - 1].name, DeleteRoot))]
  }

  /** The commands of the remove sweep, router by router. */
  function RemovePlan(rs: seq<Router>): seq<Issued>
    decreases |rs|
  {
    if rs == [] then [] else RemovePlan(rs[..|rs| - 1]) + ClearAll(rs[|rs| - 1].name, NonLoopback(rs[|rs| - 1].intfs))
  }

  /** Interface `k` is one the remove sweep clears: an interface of a listed router, without `lo` in its name. */
  ghost predicate Cleared(rs: seq<Router>, k: IfaceKey) {
    exists r, i :: r in rs && i in r.intfs && r.name == k.router && i.name == k.dev && !Contains(i.name, "lo")
  }

  /** Every operation of `ops` clears the root. */
  ghost predicate ClearsOnly(ops: seq<TcOp>) {
    forall i :: 0 <= i < |ops| ==> ops[i] == DeleteRoot
  }

  lemma {:induction false} ClearsReset(st: IfaceState, ops: seq<TcOp>)
    requires ops != [] && ClearsOnly(ops)
    ensures ExecuteAll(st, ops) == Default
  {
  }

  /** The remove sweep for one router: one root clear per interface without `lo`, in the router's order. */
  lemma {:induction false} ClearAllShape(router: string, ifaces: seq<Interface>)
    ensures |ClearAll(router, ifaces)| == |ifaces|
    ensures forall j :: 0 <= j < |ifaces| ==> ClearAll(router, ifaces)[j] == Issued(router, Command(ifaces[j].name, DeleteRoot))
    decreases |ifaces|
  {
    if ifaces != [] {
      ClearAllShape(router, ifaces[..|ifaces| - 1]);
    }
  }

  lemma {:induction false} ClearAllOps(router: string, ifaces: seq<Interface>, k: IfaceKey)
    ensures ClearsOnly(OpsOn(ClearAll(router, ifaces), k))
    ensures OpsOn(ClearAll(router, ifaces), k) != [] <==> k.router == router && exists i :: i in ifaces && i.name == k.dev
    decreases |ifaces|
  {
    if ifaces != [] {
      var n := |ifaces| - 1;
      var x := Issued(router, Command(ifaces[n].name, DeleteRoot));
      ClearAllOps(router, ifaces[..n], k);
      OpsOnAppend(ClearAll(router, ifaces[..n]), [x], k);
      assert OpsOn([x], k) == if Key(x) == k then [DeleteRoot] else [];
      assert ifaces == ifaces[..n] + [ifaces[n]];
    }
  }

  lemma {:induction false} RemovePlanOps(rs: seq<Router>, k: IfaceKey)
    ensures ClearsOnly(OpsOn(RemovePlan(rs), k))
    ensures OpsOn(RemovePlan(rs), k) != [] <==> Cleared(rs, k)
    decreases |rs|
  {
    if rs != [] {
      var n := |rs| - 1;
      var last := ClearAll(rs[n].name, NonLoopback(rs[n].intfs));
      RemovePlanOps(rs[..n], k);
      ClearAllOps(rs[n].name, NonLoopback(rs[n].intfs), k);
      OpsOnAppend(RemovePlan(rs[..n]), last, k);
      ClearedSnoc(rs, k);
    }
  }

  lemma ClearedSnoc(rs: seq<Router>, k: IfaceKey)
    requires rs != []
    ensures var r := rs[|rs| - 1];
      Cleared(rs, k) <==>
        Cleared(rs[..|rs| - 1], k) || (r.name == k.router && exists i :: i in NonLoopback(r.intfs) && i.name == k.dev)
  {
    var n := |rs| - 1;
    assert rs == rs[..n] + [rs[n]];
    if Cleared(rs, k) && !Cleared(rs[..n], k) {
      var r, i :| r in rs && i in r.intfs && r.name == k.router && i.name == k.dev && !Contains(i.name, "lo");
      assert r == rs[n];
      assert i in NonLoopback(r.intfs);
    }
    if rs[n].name == k.router && exists i :: i in NonLoopback(rs[n].intfs) && i.name == k.dev {
      var i :| i in NonLoopback(rs[n].intfs) && i.name == k.dev;
      assert rs[n] in rs && i in rs[n].intfs;
    }
  }

  /** The remove sweep returns every cleared interface to the default and leaves the others alone. */
  lemma RemoveRestoresDefault(c: Config, rs: seq<Router>, k: IfaceKey)
    requires k in c
    ensures IssueAll(c, RemovePlan(rs)).Keys == c.Keys
    ensures IssueAll(c, RemovePlan(rs))[k] == if Cleared(rs, k) then Default else c[k]
  {
    IssueAllAt(c, RemovePlan(rs), k);
    RemovePlanOps(rs, k);
    if Cleared(rs, k) {
      ClearsReset(c[k], OpsOn(RemovePlan(rs), k));
    }
  }

  /** Remove after apply returns every swept interface whose name has no `lo` to the default. */
  lemma RemoveUndoesApply(c: Config, rs: seq<Router>, m: map<string, Directions>, k: IfaceKey)
    requires k in c && Swept(rs, m, k) && !Contains(k.dev, "lo")
    ensures IssueAll(IssueAll(c, ApplyPlan(rs, m)), RemovePlan(rs))[k] == Default
  {
    var r :| r in rs && r.name == k.router && r.name in m &&
      (k.dev in m[r.name].forward || k.dev in m[r.name].backward) && Lookup(r.intfs, k.dev).Some?;
    var i := Lookup(r.intfs, k.dev).value;
    assert Cleared(rs, k);
    IssueAllAt(c, ApplyPlan(rs, m), k);
    RemoveRestoresDefault(IssueAll(c, ApplyPlan(rs, m)), rs, k);
  }

  /** A name without the letter `l` does not contain `lo`. */
  lemma {:induction false} NoLetterL(s: string)
    requires 'l' !in s
    ensures !Contains(s, "lo")
    decreases |s|
  {
    if |s| >= 2 {
      assert s[..2][0] == s[0];
      assert forall c :: c in s[1..] ==> c in s;
      NoLetterL(s[1..]);
    }
  }

  /** The loopback interface is never cleared by the remove sweep. */
  lemma LoopbackKept(rs: seq<Router>, router: string)
    ensures !Cleared(rs, IfaceKey(router, "lo"))
  {
    assert "lo"[..2] == "lo";
  }

  /** No interface of the map has `lo` in its name, so the remove sweep clears each one it finds. */
  lemma MappedNamesKept(router: string, dev: string)
    requires router in InterfacesMap
    requires dev in InterfacesMap[router].forward || dev in InterfacesMap[router].backward
    ensures !Contains(dev, "lo")
  {
    assert 'l' !in dev;
    NoLetterL(dev);
  }

  /** Removing after applying returns every interface of the map that its router has to the default. */
  lemma MappedInterfacesRestored(c: Config, rs: seq<Router>, r: Router, dev: string)
    requires r in rs && r.name in InterfacesMap
    requires dev in InterfacesMap[r.name].forward || dev in InterfacesMap[r.name].backward
    requires Lookup(r.intfs, dev).Some?
    requires IfaceKey(r.name, dev) in c
    ensures IssueAll(IssueAll(c, ApplyPlan(rs, InterfacesMap)), RemovePlan(rs))[IfaceKey(r.name, dev)] == Default
  {
    MappedNamesKept(r.name, dev);
    assert Swept(rs, InterfacesMap, IfaceKey(r.name, dev));
    RemoveUndoesApply(c, rs, InterfacesMap, IfaceKey(r.name, dev));
  }

  // ---------------------------------------------------------------------------
  // The control loop (iniciar_loop_controle)
  // ---------------------------------------------------------------------------

  /** What one poll of the alert marker sets off. */
  datatype Reaction = Idle | ApplyRules | RemoveRules

  /** Apply when the marker appears while the rules are off; remove when it is gone while they are on. */
  function React(active: bool, markerPresent: bool): Reaction {
    if markerPresent then (if !active then ApplyRules else Idle)
    else (if active then RemoveRules else Idle)
  }

  /** The flag after a reaction: the apply sweep returns true and the remove sweep false. */
  function FlagAfter(active: bool, r: Reaction): bool {
    match r
    case Idle => active
    case ApplyRules => true
    case RemoveRules => false
  }

  /** The commands a reaction issues. */
  function Commands(r: Reaction, rs: seq<Router>, m: map<string, Directions>): seq<Issued> {
    match r
    case Idle => []
    case ApplyRules => ApplyPlan(rs, m)
    case RemoveRules => RemovePlan(rs)
  }

  /** The flag after polling the markers `ms`, starting from `active0`. */
  function Flag(active0: bool, ms: seq<bool>): bool
    decreases |ms|
  {
    if ms == [] then active0
    else
      var before := Flag(active0, ms[..|ms| - 1]);
      FlagAfter(before, React(before, ms[|ms| - 1]))
  }

  /** The reaction to each poll of `ms`. */
  function Reactions(active0: bool, ms: seq<bool>): (r: seq<Reaction>)
    ensures |r| == |ms|
    decreases |ms|
  {
    if ms == [] then []
    else Reactions(active0, ms[..|ms| - 1]) + [React(Flag(active0, ms[..|ms| - 1]), ms[|ms| - 1])]
  }

  /** Every command the loop issues while polling `ms`, in order. */
  function TraceCommands(active0: bool, ms: seq<bool>, rs: seq<Router>, m: map<string, Directions>): seq<Issued>
    decreases |ms|
  {
    if ms == [] then []
    else TraceCommands(active0, ms[..|ms| - 1], rs, m) + Commands(React(Flag(active0, ms[..|ms| - 1]), ms[|ms| - 1]), rs, m)
  }

  /** After any poll the flag says whether that poll saw the marker. */
  lemma FlagFollowsMarker(active0: bool, ms: seq<bool>)
    requires ms != []
    ensures Flag(active0, ms) == ms[|ms| - 1]
  {
  }

  /** Poll `i` reacts to the state left by the polls before it. */
  lemma {:induction false} ReactionAt(active0: bool, ms: seq<bool>, i: int)
    requires 0 <= i < |ms|
    ensures Reactions(active0, ms)[i] == React(Flag(active0, ms[..i]), ms[i])
    decreases |ms|
  {
    var n := |ms| - 1;
    if i < n {
      ReactionAt(active0, ms[..n], i);
      assert ms[..n][..i] == ms[..i];
    }
  }

  /**
   * The loop is edge-triggered: poll `i` applies exactly when the marker is
   * present now and was not at the previous poll (or the rules were off at
   * the start), and removes exactly on the opposite change.
   */
  lemma EdgeTriggered(active0: bool, ms: seq<bool>, i: int)
    requires 0 <= i < |ms|
    ensures Reactions(active0, ms)[i] == ApplyRules <==> ms[i] && !(if i == 0 then active0 else ms[i - 1])
    ensures Reactions(active0, ms)[i] == RemoveRules <==> !ms[i] && (if i == 0 then active0 else ms[i - 1])
  {
    ReactionAt(active0, ms, i);
    if i > 0 {
      FlagFollowsMarker(active0, ms[..i]);
      assert ms[..i][i - 1] == ms[i - 1];
    }
  }

  /** Polls that set nothing off leave the flag alone. */
  lemma {:induction false} FlagHeld(active0: bool, ms: seq<bool>, i: int, j: int)
    requires 0 <= i < j <= |ms|
    requires forall k :: i < k < j ==> Reactions(active0, ms)[k] == Idle
    ensures Flag(active0, ms[..j]) == Flag(active0, ms[..i + 1])
    decreases j - i
  {
    if j > i + 1 {
      var k := j - 1;
      FlagHeld(active0, ms, i, k);
      ReactionAt(active0, ms, k);
      assert ms[..j][..k] == ms[..k];
    }
  }

  /** Two consecutive sweeps of the loop are never of the same kind: applies and removals alternate. */
  lemma SweepsAlternate(active0: bool, ms: seq<bool>, i: int, j: int)
    requires 0 <= i < j < |ms|
    requires Reactions(active0, ms)[i] != Idle && Reactions(active0, ms)[j] != Idle
    requires forall k :: i < k < j ==> Reactions(active0, ms)[k] == Idle
    ensures Reactions(active0, ms)[i] != Reactions(active0, ms)[j]
  {
    ReactionAt(active0, ms, i);
    ReactionAt(active0, ms, j);
    FlagHeld(active0, ms, i, j);
    assert ms[..i + 1][..i] == ms[..i];
    assert Flag(active0, ms[..i + 1]) == FlagAfter(Flag(active0, ms[..i]), React(Flag(active0, ms[..i]), ms[i]));
  }

  // ---------------------------------------------------------------------------
  // One step of each sweep, as the controller's loops take them
  // ---------------------------------------------------------------------------

  /** Running `done` and then `step` has the effect of running `done + step`, and logs it. */
  lemma Chain(c0: Config, done: seq<Issued>, step: seq<Issued>, c1: Config, c2: Config,
              log0: seq<Issued>, log1: seq<Issued>, log2: seq<Issued>)
    requires c1 == IssueAll(c0, done) && c2 == IssueAll(c1, step)
    requires log1 == log0 + done && log2 == log1 + step
    ensures c2 == IssueAll(c0, done + step) && log2 == log0 + (done + step)
  {
    IssueAllAppend(c0, done, step);
  }

  /** `Chain` for a single command. */
  lemma ChainOne(c0: Config, done: seq<Issued>, x: Issued, c1: Config, c2: Config,
                 log0: seq<Issued>, log1: seq<Issued>, log2: seq<Issued>)
    requires c1 == IssueAll(c0, done) && c2 == Issue(c1, x)
    requires log1 == log0 + done && log2 == log1 + [x]
    ensures c2 == IssueAll(c0, done + [x]) && log2 == log0 + (done + [x])
  {
    assert (done + [x])[..|done|] == done;
  }

  lemma OnStep(router: string, cmds: seq<Command>, j: int)
    requires 0 <= j < |cmds|
    ensures On(router, cmds[..j + 1]) == On(router, cmds[..j]) + [Issued(router, cmds[j])]
  {
    assert cmds[..j + 1][..j] == cmds[..j];
  }

  lemma InterfacesPlanStep(r: Router, names: seq<string>, j: int, field: PortField)
    requires 0 <= j < |names|
    ensures InterfacesPlan(r, names[..j + 1], field) == InterfacesPlan(r, names[..j], field) + InterfacePlan(r, names[j], field)
  {
    assert names[..j + 1][..j] == names[..j];
  }

  lemma ApplyPlanStep(rs: seq<Router>, i: int, m: map<string, Directions>)
    requires 0 <= i < |rs|
    ensures ApplyPlan(rs[..i + 1], m) == ApplyPlan(rs[..i], m) + RouterPlan(rs[i], m)
  {
    assert rs[..i + 1][..i] == rs[..i];
  }

  lemma RouterPlanParts(r: Router, m: map<string, Directions>, before: seq<Issued>)
    ensures r.name !in m ==> before + RouterPlan(r, m) == before
    ensures r.name in m ==>
              before + RouterPlan(r, m) ==
              before + InterfacesPlan(r, m[r.name].forward, DstPort) + InterfacesPlan(r, m[r.name].backward, SrcPort)
  {
    if r.name in m {
      ConcatAssoc(before, InterfacesPlan(r, m[r.name].forward, DstPort), InterfacesPlan(r, m[r.name].backward, SrcPort));
    } else {
      assert RouterPlan(r, m) == [];
      assert before + [] == before;
    }
  }

  lemma ClearAllStep(before: seq<Issued>, router: string, ifaces: seq<Interface>, j: int)
    requires 0 <= j < |ifaces|
    ensures before + ClearAll(router, ifaces[..j + 1]) ==
            (before + ClearAll(router, ifaces[..j])) + [Issued(router, Command(ifaces[j].name, DeleteRoot))]
  {
    assert ifaces[..j + 1][..j] == ifaces[..j];
  }

  lemma ClearAllBounds(before: seq<Issued>, router: string, ifaces: seq<Interface>)
    ensures before + ClearAll(router, ifaces[..0]) == before
    ensures before + ClearAll(router, ifaces[..|ifaces|]) == before + ClearAll(router, ifaces)
  {
    assert ifaces[..0] == [];
    assert ifaces[..|ifaces|] == ifaces;
  }

  lemma RemovePlanStep(rs: seq<Router>, i: int)
    requires 0 <= i < |rs|
    ensures RemovePlan(rs[..i + 1]) == RemovePlan(rs[..i]) + ClearAll(rs[i].name, NonLoopback(rs[i].intfs))
  {
    assert rs[..i + 1][..i] == rs[..i];
  }

  lemma TraceStep(active0: bool, ms: seq<bool>, i: int, rs: seq<Router>, m: map<string, Directions>)
    requires 0 <= i < |ms|
    ensures Flag(active0, ms[..i + 1]) == FlagAfter(Flag(active0, ms[..i]), React(Flag(active0, ms[..i]), ms[i]))
    ensures TraceCommands(active0, ms[..i + 1], rs, m) ==
            TraceCommands(active0, ms[..i], rs, m) + Commands(React(Flag(active0, ms[..i]), ms[i]), rs, m)
  {
    assert ms[..i + 1][..i] == ms[..i];
  }

  // ---------------------------------------------------------------------------
  // The controller (module state of controlador_qos.py)
  // ---------------------------------------------------------------------------

  /**
   * The controller: the routers it controls, the flag `regras_qos_ativas`,
   * the traffic control on every interface, and the log of the commands run.
   */
  class Controller {
    const routers: seq<Router>
    var active: bool
    var config: Config
    var issued: seq<Issued>

    /** At start-up the rules are off and nothing has been run. */
    constructor (routers: seq<Router>, config: Config)
      ensures this.routers == routers && this.config == config
      ensures !active && issued == []
    {
      this.routers := routers;
      this.config := config;
      active := false;
      issued := [];
    }

    /** `roteador.cmd(...)`: run one command on a router. */
    method RunCommand(x: Issued)
      modifies this`config, this`issued
      ensures config == Issue(old(config), x)
      ensures issued == old(issued) + [x]
    {
      config := Issue(config, x);
      issued := issued + [x];
    }

    /** `aplicar_htb_sfq_em_interface`: compile the plan for one interface and run it, or do nothing when the router lacks it. */
    method ApplyOnInterface(r: Router, name: string, field: PortField)
      modifies this`config, this`issued
      ensures issued == old(issued) + InterfacePlan(r, name, field)
      ensures config == IssueAll(old(config), InterfacePlan(r, name, field))
    {
      var found := Lookup(r.intfs, name);
      if found.None? {
        return;
      }
      var iface := found.value;
      var cmds := Compile(iface.name, iface.bw, field);
      for j := 0 to |cmds|
        invariant issued == old(issued) + On(r.name, cmds[..j])
        invariant config == IssueAll(old(config), On(r.name, cmds[..j]))
      {
        var x := Issued(r.name, cmds[j]);
        OnStep(r.name, cmds, j);
        ghost var c1, l1 := config, issued;
        RunCommand(x);
        ChainOne(old(config), On(r.name, cmds[..j]), x, c1, config, old(issued), l1, issued);
      }
      assert cmds[..|cmds|] == cmds;
    }

    /** One `for nome_iface in ...` loop of the apply sweep. */
    method ApplyOnInterfaces(r: Router, names: seq<string>, field: PortField)
      modifies this`config, this`issued
      ensures issued == old(issued) + InterfacesPlan(r, names, field)
      ensures config == IssueAll(old(config), InterfacesPlan(r, names, field))
    {
      for j := 0 to |names|
        invariant issued == old(issued) + InterfacesPlan(r, names[..j], field)
        invariant config == IssueAll(old(config), InterfacesPlan(r, names[..j], field))
      {
        InterfacesPlanStep(r, names, j, field);
        ghost var c1, l1 := config, issued;
        ApplyOnInterface(r, names[j], field);
        Chain(old(config), InterfacesPlan(r, names[..j], field), InterfacePlan(r, names[j], field), c1, config, old(issued), l1, issued);
      }
      assert names[..|names|] == names;
    }

    /** `aplicar_regras_qos_bidirecional`: shape every mapped interface of every mapped router; returns true. */
    method ApplyAll() returns (result: bool)
      modifies this`config, this`issued
      ensures result
      ensures issued == old(issued) + ApplyPlan(routers, InterfacesMap)
      ensures config == IssueAll(old(config), ApplyPlan(routers, InterfacesMap))
    {
      for i := 0 to |routers|
        invariant issued == old(issued) + ApplyPlan(routers[..i], InterfacesMap)
        invariant config == IssueAll(old(config), ApplyPlan(routers[..i], InterfacesMap))
      {
        var r := routers[i];
        ghost var before := ApplyPlan(routers[..i], InterfacesMap);
        ApplyPlanStep(routers, i, InterfacesMap);
        RouterPlanParts(r, InterfacesMap, before);
        if r.name !in InterfacesMap {
          continue;
        }
        ghost var fw := InterfacesPlan(r, InterfacesMap[r.name].forward, DstPort);
        ghost var bw := InterfacesPlan(r, InterfacesMap[r.name].backward, SrcPort);
        ghost var c1, l1 := config, issued;
        ApplyOnInterfaces(r, InterfacesMap[r.name].forward, DstPort);
        Chain(old(config), before, fw, c1, config, old(issued), l1, issued);
        ghost var c2, l2 := config, issued;
        ApplyOnInterfaces(r, InterfacesMap[r.name].backward, SrcPort);
        Chain(old(config), before + fw, bw, c2, config, old(issued), l2, issued);
      }
      assert routers[..|routers|] == routers;
      result := true;
    }

    /** `remover_regras_qos`: clear the root of every router interface without `lo` in its name; returns false. */
    method RemoveAll() returns (result: bool)
      modifies this`config, this`issued
      ensures !result
      ensures issued == old(issued) + RemovePlan(routers)
      ensures config == IssueAll(old(config), RemovePlan(routers))
    {
      for i := 0 to |routers|
        invariant issued == old(issued) + RemovePlan(routers[..i])
        invariant config == IssueAll(old(config), RemovePlan(routers[..i]))
      {
        var r := routers[i];
        ghost var before := RemovePlan(routers[..i]);
        RemovePlanStep(routers, i);
        var interfaces := NonLoopback(r.intfs);
        ClearAllBounds(before, r.name, interfaces);
        for j := 0 to |interfaces|
          invariant issued == old(issued) + (before + ClearAll(r.name, interfaces[..j]))
          invariant config == IssueAll(old(config), before + ClearAll(r.name, interfaces[..j]))
        {
          var x := Issued(r.name, Command(interfaces[j].name, DeleteRoot));
          ClearAllStep(before, r.name, interfaces, j);
          ghost var c1, l1 := config, issued;
          RunCommand(x);
          ChainOne(old(config), before + ClearAll(r.name, interfaces[..j]), x, c1, config, old(issued), l1, issued);
        }
      }
      assert routers[..|routers|] == routers;
      result := false;
    }

    /** One pass of the `while True` loop, given whether the alert marker exists. */
    method Tick(markerPresent: bool)
      modifies this`active, this`config, this`issued
      ensures active == FlagAfter(old(active), React(old(active), markerPresent))
      ensures issued == old(issued) + Commands(React(old(active), markerPresent), routers, InterfacesMap)
      ensures config == IssueAll(old(config), Commands(React(old(active), markerPresent), routers, InterfacesMap))
    {
      if markerPresent {
        if !active {
          active := ApplyAll();
        }
      } else {
        if active {
          active := RemoveAll();
        }
      }
    }

    /** The `KeyboardInterrupt` handler: remove the rules if they are on; the flag is left as it is. */
    method Interrupt()
      modifies this`config, this`issued
      ensures issued == old(issued) + (if active then RemovePlan(routers) else [])
      ensures config == IssueAll(old(config), if active then RemovePlan(routers) else [])
    {
      if active {
        var discarded := RemoveAll();
      }
    }

    /** `iniciar_loop_controle`: poll the marker once per entry of `markers`, then stop as on an interrupt. */
    method Control(markers: seq<bool>)
      modifies this`active, this`config, this`issued
      ensures active == Flag(old(active), markers)
      ensures issued == old(issued) + (TraceCommands(old(active), markers, routers, InterfacesMap) +
                        (if active then RemovePlan(routers) else []))
      ensures config == IssueAll(old(config), TraceCommands(old(active), markers, routers, InterfacesMap) +
                        (if active then RemovePlan(routers) else []))
    {
      for i := 0 to |markers|
        invariant active == Flag(old(active), markers[..i])
        invariant issued == old(issued) + TraceCommands(old(active), markers[..i], routers, InterfacesMap)
        invariant config == IssueAll(old(config), TraceCommands(old(active), markers[..i], routers, InterfacesMap))
      {
        TraceStep(old(active), markers, i, routers, InterfacesMap);
        ghost var c1, l1 := config, issued;
        ghost var step := Commands(React(active, markers[i]), routers, InterfacesMap);
        Tick(markers[i]);
        Chain(old(config), TraceCommands(old(active), markers[..i], routers, InterfacesMap), step, c1, config, old(issued), l1, issued);
      }
      assert markers[..|markers|] == markers;
      ghost var c1, l1 := config, issued;
      Interrupt();
      Chain(old(config), TraceCommands(old(active), markers, routers, InterfacesMap),
            if active then RemovePlan(routers) else [], c1, config, old(issued), l1, issued);
    }
  }
}
