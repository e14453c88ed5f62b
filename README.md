# Latency-triggered QoS for a uRLLC/eMBB testbed, in Dafny

The system watches the round-trip latency of a uRLLC host towards a cloud host
and, when it degrades, installs a fixed Linux traffic-control plan (an HTB tree
with three classes, an SFQ leaf under each, and four filters: three u32
filters and one ARP filter) on the
transit routers, in both directions; when the latency has been good for long
enough it removes the plan. Two loops cooperate through one file, the alert
marker `latencia.alerta`:

- the **latency monitor** (`gerador_monitor_uRLLC.py`) pings once per second
  and runs a hysteresis on the marker: a reading above 5 ms creates it; the
  first good reading under an alert starts a calm period; a good reading more
  than 70 s later removes it; a failed probe cancels the calm period;
- the **QoS controller** (`controlador_qos.py`) polls the marker every 5 s and,
  edge-triggered by its flag `regras_qos_ativas`, applies the plan to the
  mapped interfaces of each router or clears the root qdisc of every router
  interface whose name does not contain `lo`.

The project has five modules:

- `Wrappers` (wrappers.dfy): `Option`.
- `LatencyMonitor` (latency_monitor.dfy): the monitor's state (marker present,
  calm-period start or unset) as a value. `Step` is one loop iteration and
  `Run` a sequence of them. `NextPhase` is a three-phase reference table
  (NORMAL/ALERT/COOLDOWN) that `Step` is proved to follow. Trace lemmas say
  when the marker can appear and disappear. The class `Monitor` carries the
  loop body imperatively, proved against `Step`/`Run`.
- `TrafficControl` (traffic_control.dfy): an abstract `tc`. An interface's
  configuration is the list of operations installed since its root was last
  deleted; the empty list is the kernel default (best effort). Packets are
  classified by the matching filter with the lowest `prio` number, otherwise
  by the HTB default class.
- `RuleCompiler` (rule_compiler.dfy): the command list of
  `aplicar_htb_sfq_em_interface` (`Plan`, `Compile`). It is proved to:
  - leave one fixed configuration whatever was installed before, so applying
    twice is the same as applying once;
  - keep the child classes' guarantees within the parent rate;
  - give one SFQ to each class;
  - route ICMP, ARP and the uRLLC port to 1:10 and the eMBB port to 1:20,
    with everything else reaching 1:30 only through the HTB default.
- `QosController` (qos_controller.dfy): the apply and remove sweeps as command
  lists (`ApplyPlan`, `RemovePlan`) and their effect on every interface of the
  network (`IssueAll`). It also models the edge-triggered reaction of the
  control loop, and the class `Controller`, whose methods run the loops of the
  source and are proved to issue exactly those command lists.

The model follows the code where a looser reading is possible:

- the marker is removed only when strictly more than 70 s have passed since
  the calm period began (`>` at gerador_monitor_uRLLC.py:51);
- a failed probe unsets the calm-period timer (line 57), so it does not
  restart it at the current time: a failure during COOLDOWN falls back to
  ALERT, and the next good reading starts a new calm period.

Units and inputs:

- Latency is an integer number of microseconds: 5.0 ms is 5000. A negative
  reading is the `-1` that the probe returns on failure.
- Time is the integer seconds at which an iteration looks at its reading.
- `int(bw * 0.95)` is `bw * 95 / 100` on natural numbers.
- A router's `intf(name)` lookup is `Lookup`, which returns `None` (no
  commands issued) for a name the router lacks.
- `'lo' in str(iface)` is a substring test on the interface name.
- Every `roteador.cmd(...)` is logged in the controller's `issued` list, and
  its effect is applied to `config`, a map from (router, device) to that
  device's configuration.

## Model

| member | source | states |
|---|---|---|
| LatencyMonitor.Initial | gerador_monitor_uRLLC.py:13 | at start-up the calm-period timer is unset; the phase is ALERT if a marker was left over, NORMAL otherwise; the state invariant holds |
| LatencyMonitor.Step | gerador_monitor_uRLLC.py:37-57 | what each kind of reading does: above 5 ms asserts the marker and cancels the calm period; a good reading without a marker changes nothing; the first good reading under an alert starts the calm period at `now`; during the calm period the marker goes exactly when more than 70 s have passed; a failed probe keeps the marker and unsets the timer; "timer set implies marker" is preserved |
| LatencyMonitor.StepFollowsPhaseTable | gerador_monitor_uRLLC.py:37-57 | the phase after every step is the one the NORMAL/ALERT/COOLDOWN table gives for the phase before, the verdict on the reading and whether the calm period is over |
| LatencyMonitor.NextPhase | gerador_monitor_uRLLC.py:37-57 | reference definition: the NORMAL/ALERT/COOLDOWN table over the verdict on a reading and whether the calm period is over |
| LatencyMonitor.RunConsistent | gerador_monitor_uRLLC.py:34-59 | over any number of iterations a running calm period always comes with the marker |
| LatencyMonitor.Run | gerador_monitor_uRLLC.py:34-59 | definition: the state after the loop has handled a finite sequence of readings, one `Step` each |
| LatencyMonitor.StepWithTimer | gerador_monitor_uRLLC.py:46-57 | a step that leaves the timer set saw a good reading and either started the calm period at `now` from ALERT or changed nothing |
| LatencyMonitor.CalmStartedByGoodReading | gerador_monitor_uRLLC.py:46-57 | a running calm period began at a good reading of the trace received in ALERT, records that reading's time, and every reading since was good |
| LatencyMonitor.RemovalWitness | gerador_monitor_uRLLC.py:46-54 | the iteration that removes the marker is preceded by the reading that started its calm period more than 70 s earlier, with only good readings from then on |
| LatencyMonitor.MarkerRemovedOnlyAfterCalm | gerador_monitor_uRLLC.py:46-54 | the marker disappears only on a good reading, more than 70 s after an earlier good reading started the calm period, with no high reading or failed probe in between |
| LatencyMonitor.MarkerRaisedOnlyByHighReading | gerador_monitor_uRLLC.py:40-45 | if the marker is present after a trace that started without it, some reading of the trace was above 5 ms |
| LatencyMonitor.MarkerHeldWithoutGoodReading | gerador_monitor_uRLLC.py:40-57 | once present, the marker stays for as long as no good reading arrives |
| LatencyMonitor.CalmPeriodHolds | gerador_monitor_uRLLC.py:47-54 | during a calm period that started at `t`, good readings no later than `t + 70` change nothing |
| LatencyMonitor.Shutdown | gerador_monitor_uRLLC.py:61-64 | on interrupt the marker is gone and the phase is NORMAL; the timer variable is left as it is |
| LatencyMonitor.Monitor.constructor | gerador_monitor_uRLLC.py:13 | the process starts in `Initial` and the invariant holds |
| LatencyMonitor.Monitor.Tick | gerador_monitor_uRLLC.py:35-57 | the loop body, written as the nested ifs of the source, moves the state exactly as `Step` and keeps the invariant |
| LatencyMonitor.Monitor.Watch | gerador_monitor_uRLLC.py:34-59 | the loop over a finite trace ends in `Run` of the trace and keeps the invariant |
| LatencyMonitor.Monitor.Interrupt | gerador_monitor_uRLLC.py:61-64 | the interrupt handler removes the marker if present, as `Shutdown` |
| TrafficControl.Execute | controlador_qos.py:54-75 | deleting the root leaves the default configuration; any other operation keeps what is installed and adds itself after it |
| TrafficControl.ExecuteAllAdds | controlador_qos.py:56-75 | operations that are not a root deletion only accumulate: the result is the old configuration followed by them |
| TrafficControl.ClearedFirst | controlador_qos.py:54 | a command list that begins by deleting the root has the same result from every prior configuration |
| TrafficControl.FreshInstall | controlador_qos.py:54-75 | a list that deletes the root first and never again leaves installed exactly the operations after the deletion |
| TrafficControl.BestFilter | controlador_qos.py:72-75 | the chosen filter is installed, matches the packet and has the lowest `prio` number among the matching filters; no choice means no filter matches |
| TrafficControl.DefaultClass | controlador_qos.py:56 | a default class exists exactly when an HTB root is installed |
| TrafficControl.DefaultIsUnclassified | controlador_qos.py:88 | on the default configuration no packet is put in any class (best effort) |
| RuleCompiler.ParentRate | controlador_qos.py:51 | the parent rate is 95 % of the link bandwidth rounded down: `100*rate <= 95*bw < 100*(rate+1)` |
| RuleCompiler.LinkRates | controlador_qos.py:49-51 | links of 50, 100 and 200 Mbit/s get parent rates 47, 95 and 190; a link without `bw` is taken as 100 and gets 95 |
| RuleCompiler.LinkBw | controlador_qos.py:49-50 | definition: the link bandwidth, 100 when the parameter is missing or `None` |
| RuleCompiler.Setup | controlador_qos.py:54-58 | definition: the root deletion, the HTB root `1:` with default class 30, and the parent class 1:1 at the parent rate |
| RuleCompiler.Filters | controlador_qos.py:72-75 | definition: the ICMP, ARP, uRLLC-port and eMBB-port filters, the port ones on the given field |
| RuleCompiler.Plan | controlador_qos.py:53-76 | definition: the setup, then the three child classes of lines 61-63 (the constant `ChildClasses`), then their SFQs of lines 67-69 (the constant `LeafQdiscs`), then the filters |
| RuleCompiler.Compile | controlador_qos.py:53-76 | the plan yields 13 commands, one per operation of the plan, each naming the interface's device, in the order of the plan |
| RuleCompiler.PlanShape | controlador_qos.py:53-76 | the plan deletes the root first and never again, installs one HTB root `1:` with default 30, then the classes, then the three SFQs, then the four filters |
| RuleCompiler.PlanInstallsFromAnyState | controlador_qos.py:53-78 | whatever the interface had installed, running the plan leaves exactly the twelve operations after the deletion |
| RuleCompiler.PlanIdempotent | controlador_qos.py:53-78 | running the plan on an interface that already carries it leaves the same configuration |
| RuleCompiler.PlanChildren | controlador_qos.py:61-63 | the classes under 1:1 are exactly 1:10, 1:20 and 1:30 with their rates, ceilings and priorities |
| RuleCompiler.ChildClassesGuarantee | controlador_qos.py:61-63 | the guaranteed rates of the three classes add up to 16 Mbit/s |
| RuleCompiler.ChildGuarantees | controlador_qos.py:58-63 | each class's rate is at most its ceiling; priorities are 1 < 2 < 3; the guarantees fit under the parent rate exactly when the link has at least 17 Mbit/s (so on every link of the testbed) |
| RuleCompiler.OneSfqPerChild | controlador_qos.py:67-69 | each class has exactly one SFQ leaf, with handle equal to its minor number and perturb 10 |
| RuleCompiler.PlanWellFormed | controlador_qos.py:53-76 | every class, qdisc and filter of the plan hangs off a handle that an earlier command of the plan created: the parent class 1:1 and the four filters follow the HTB root `1:`, and every child class, SFQ and filter target follows the class it names |
| RuleCompiler.ClassNeedsRoot | controlador_qos.py:56-58 | a class hung from `1:` with no root qdisc added before it is not well formed |
| RuleCompiler.FiltersRoute | controlador_qos.py:72-75 | a matching filter sends the packet to its intended class, and no filter matches exactly the packets intended for 1:30 |
| RuleCompiler.NoFilterToBackground | controlador_qos.py:72-75 | no filter of the plan targets 1:30 |
| RuleCompiler.IntendedClass | controlador_qos.py:65-75 | reference definition: ICMP, ARP and the uRLLC port to 1:10, the eMBB port to 1:20, everything else to 1:30 |
| RuleCompiler.PlanRoutesAsIntended | controlador_qos.py:56-75 | on the installed plan, ICMP and ARP go to 1:10, the uRLLC port (5202) on the interface's direction field to 1:10, the eMBB port (5201) to 1:20 and everything else to 1:30; a packet lands in 1:30 exactly when no filter matches it |
| QosController.Lookup | controlador_qos.py:44-45 | the interface found is one of the router's, with the name asked for; none is found only when the router has no interface of that name |
| QosController.Issue | controlador_qos.py:77-78 | running a command never adds or drops an interface of the network |
| QosController.IssueAllAt | controlador_qos.py:77-78 | after any list of commands each interface is in the configuration obtained by running, in order, exactly the operations addressed to it |
| QosController.InterfacePlan | controlador_qos.py:42-78 | definition: the compiled commands of one interface on its router, or none when the router has no interface of that name |
| QosController.InterfacesPlan | controlador_qos.py:26-29 | definition: the commands of each name of one direction list, in order |
| QosController.RouterPlan | controlador_qos.py:23-29 | definition: nothing for an unmapped router, else the forward interfaces by `dport` then the backward ones by `sport` |
| QosController.ApplyPlan | controlador_qos.py:12-29 | definition: the router plans in the order of the router list |
| QosController.InterfacePlanOps | controlador_qos.py:42-78 | one interface's commands reach only that interface, and only if the router has it; what reaches it clears the root first and installs the plan for that interface's own `bw` matching ports on the given field |
| QosController.InterfacesPlanOps | controlador_qos.py:26-29 | a direction loop reaches exactly the named interfaces the router has, each with the plan for its own `bw` on the loop's field |
| QosController.RouterPlanOps | controlador_qos.py:23-29 | a router outside the map gets nothing; a mapped router's forward and backward interfaces that it has are reached, each with the plan for its own `bw`, matching `dport` when listed forward and `sport` when listed backward |
| QosController.ApplyPlanOps | controlador_qos.py:12-29 | the apply sweep reaches an interface exactly when it is swept (a mapped interface that its router has), and only with full plans |
| QosController.ApplyPlanFor | controlador_qos.py:23-29 | when only one router of the list has a given name, each of its interfaces receives the plan for that interface's own `bw`, matching `dport` if listed forward and `sport` if listed backward |
| QosController.ApplyClassifies | controlador_qos.py:12-29 | after the apply sweep each swept interface carries exactly one installed plan, never two stacked: the plan for its own link's `bw`, with the `dport` filters when listed forward and the `sport` filters when listed backward; every other interface is as before |
| QosController.ApplyIdempotent | controlador_qos.py:12-29 | applying twice in a row leaves the network as applying once |
| QosController.NonLoopback | controlador_qos.py:85 | the interfaces kept are exactly the router's interfaces whose name does not contain `lo` |
| QosController.NonLoopbackCount | controlador_qos.py:85 | each interface is kept as many times as the router lists it when its name lacks `lo`, and never otherwise, so the remove sweep issues one root clear per listing of such an interface |
| QosController.NonLoopbackAppend | controlador_qos.py:85 | the filter keeps the router's order: filtering a concatenation gives the filtered parts one after the other |
| QosController.NonLoopbackOne | controlador_qos.py:85 | a single interface is kept exactly when its name does not contain `lo` |
| QosController.ClearAll | controlador_qos.py:86-88 | definition: one root deletion per listed interface of a router |
| QosController.RemovePlan | controlador_qos.py:81-89 | definition: the root deletions of every router's interfaces without `lo` in the name, router by router |
| QosController.ClearAllShape | controlador_qos.py:86-88 | the remove sweep issues one root deletion per kept interface, in the router's order, on that router |
| QosController.ClearAllOps | controlador_qos.py:86-88 | one router's removal reaches exactly its kept interfaces, and only with root deletions |
| QosController.RemovePlanOps | controlador_qos.py:81-89 | the remove sweep reaches exactly the interfaces it clears, and only with root deletions |
| QosController.RemoveRestoresDefault | controlador_qos.py:81-89 | after the remove sweep every cleared interface is back to the default and every other interface is unchanged |
| QosController.RemoveUndoesApply | controlador_qos.py:12-89 | removing after applying returns each swept interface without `lo` in its name to the default |
| QosController.LoopbackKept | controlador_qos.py:85 | the remove sweep never touches an interface called `lo` |
| QosController.MappedNamesKept | controlador_qos.py:16-21 | no interface name of the map contains `lo`, so none of them is skipped by the remove sweep |
| QosController.MappedInterfacesRestored | controlador_qos.py:16-89 | on any list of routers, removing after applying returns every mapped interface that its router has to the default |
| QosController.Reactions | controlador_qos.py:99-105 | the loop reacts once per poll |
| QosController.React | controlador_qos.py:100-105 | definition: apply when the marker is present and the flag is off, remove when it is absent and the flag is on, otherwise nothing |
| QosController.FlagAfter | controlador_qos.py:102-105 | definition: the flag after one poll, the return value of the sweep run (true after apply, false after remove) |
| QosController.Commands | controlador_qos.py:100-105 | definition: the commands of one reaction: the apply sweep, the remove sweep or none |
| QosController.Flag | controlador_qos.py:99-107 | definition: the flag after a finite sequence of polls |
| QosController.TraceCommands | controlador_qos.py:99-107 | definition: the commands of all polls of a finite sequence, in order |
| QosController.ReactionAt | controlador_qos.py:99-105 | the reaction to each poll depends only on the flag left by the polls before it and on the marker seen |
| QosController.FlagFollowsMarker | controlador_qos.py:100-105 | after any poll the flag equals whether that poll saw the marker |
| QosController.EdgeTriggered | controlador_qos.py:100-105 | a poll applies exactly when the marker is present and was absent at the previous poll, and removes exactly on the opposite change |
| QosController.FlagHeld | controlador_qos.py:99-107 | polls that trigger nothing leave the flag unchanged |
| QosController.SweepsAlternate | controlador_qos.py:99-105 | two consecutive sweeps are never of the same kind: apply and remove alternate |
| QosController.Controller.constructor | controlador_qos.py:10 | the controller starts with the rules off and no command run |
| QosController.Controller.RunCommand | controlador_qos.py:78 | running one command appends it to the log and applies its effect |
| QosController.Controller.ApplyOnInterface | controlador_qos.py:42-78 | the per-interface loop runs exactly the compiled commands of that interface, or nothing when the router lacks it |
| QosController.Controller.ApplyOnInterfaces | controlador_qos.py:26-29 | a direction loop runs the per-interface commands of each name in order |
| QosController.Controller.ApplyAll | controlador_qos.py:12-40 | the apply sweep runs exactly the commands of `ApplyPlan` for the controlled routers and returns true |
| QosController.Controller.RemoveAll | controlador_qos.py:81-89 | the remove sweep runs exactly the commands of `RemovePlan` and returns false |
| QosController.Controller.Tick | controlador_qos.py:100-105 | one poll runs the reaction's commands and updates the flag with the sweep's return value |
| QosController.Controller.Interrupt | controlador_qos.py:108-111 | on interrupt the rules are removed if the flag is set; the flag is left as it is |
| QosController.Controller.Control | controlador_qos.py:91-111 | polling a finite list of marker observations and then stopping runs the commands of every reaction and then the interrupt's removal, and ends with the flag after the last poll |

## Left out

- The probe `obter_latencia_ping` (gerador_monitor_uRLLC.py:15-30) runs `ping` and parses its output. It is not modelled: each reading is an input, and a negative one is the failure value.
- Floating point: latencies are whole microseconds and times are whole seconds. The two `time.time()` calls at gerador_monitor_uRLLC.py:50-51 are one `now` per iteration.
- `time.sleep` (1 s and 5 s) and the `while True` loops. Each loop is modelled over a finite list of iterations, and an interrupt ends it.
- The contents written to the marker file (gerador_monitor_uRLLC.py:43-44). Only whether the file exists is modelled.
- All `print` output.
- The stabilisation ping in `aplicar_regras_qos_bidirecional` (controlador_qos.py:31-38). It is network I/O whose failure is caught and ignored, and it does not affect the flag or any interface.
- Concurrency. The monitor and the controller run in separate processes and threads, and the marker is their only shared state. The controller sees the marker as one Boolean per poll, so races on the file are not modelled.
- The real behaviour of the kernel's traffic control: rate enforcement, borrowing up to `ceil`, SFQ fairness and u32 masks. A mask is taken to cover the whole field.
- `tc` errors. Every command is taken to succeed, and deleting an absent root leaves the default.
- Whether `tc` accepts the ARP filter with no classifier (controlador_qos.py:73) is not modelled. The model matches every ARP frame with it.
- QosController.Contains: `'lo' in str(iface)` is modelled as a substring test on the interface name, as written. So a non-loopback interface whose name contains `lo` is skipped by the remove sweep, as in the source.
- QosController.Lookup: `roteador.intf(name)` returning nothing for an unknown name follows the guard at controlador_qos.py:45. Mininet's `Node.intf` instead raises `KeyError` for an unknown name, which would abort the sweep and the control loop, since the loop catches only `KeyboardInterrupt`. The model skips the name, as the guard intends. In the testbed every mapped interface exists.
- QosController.Controller.Interrupt and QosController.Controller.Control model the `KeyboardInterrupt` handler at controlador_qos.py:108-111. In the testbed the controller runs in a daemon thread, and Python delivers `KeyboardInterrupt` only to the main thread, so that handler does not run there. The rules are then left installed when the testbed stops.
- QosController.ApplyClassifies: the clause naming which plan an interface ends with requires its router to be the only one of that name in the list, as Mininet node names are unique. With two routers of the same name the last one covering the interface decides, and the model does not state that case.
- The testbed's own link shaping. Its links are Mininet `TCLink`s, so each router interface starts with Mininet's own HTB root carrying the link's `bw`. Both the plan's first command (controlador_qos.py:54) and the remove sweep (line 88) delete that root, so after removal an interface is unshaped rather than back to how it was before the rules were applied. The model states this outcome (`RemoveUndoesApply` ends in the default configuration, not in the one before), and Mininet's own qdiscs are not part of this model.
- The Mininet topology, the traffic generators and the plotting script are not part of this model. The routers and their interfaces are parameters of `Controller`.
