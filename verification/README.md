# autotun in Dafny

A model of autotun's port forwarding and proofs of what it promises: the tunnel manager with its port
allocator, policy and settings, the supervisor that drives it across reconnects, the prober's stream
decoder and snapshot builder, the relay that classifies services in passing, and the table order.

## How it is built

The tunnel manager appears twice. `TunnelModel` is the manager on values: a `State` holds everything a call
can change, an `Op` is one call, and `Step` is its effect. Go's map iteration has no order, so an `Op` carries
the order in which the ports came up (any order, except where the program sorts); and with every visited
port it carries an `Env`, the ports that other processes keep at that moment and the port the system would
hand out for "any port". A statement about all runs is thus a statement about every order and every
behaviour of the rest of the machine. `Manager` is the manager as the program has it, with entry and
forwarder objects changed in place and loops over maps; each of its methods is proved to have exactly the
effect of its `Op`. `Machine` has the system's port table and the allocator, `Store` the settings file in
memory, `Forwarder` a live tunnel.

On top of `TunnelModel`:

- `TunnelInvariants`, `TunnelRuns`: reconciliation, port ownership, honest remap marks, the event log.
- `TunnelFrames`, `TunnelLog`, `Reports`: how one call changes one row and the log, whatever ports are free; what is
  reported, why, and what tunnels dial.
- `Standing`: what the user's decision and the policy come to, said of tunnels alone. `Sightings`: what a row shows of
  its service.
- `Reconnect`: exactly when a reconnect restores every tunnel.
- `Window`: the grace period as a sliding window. `Pause`: pausing and resuming. `Baseline`: services that
  were there before. `Decisions`, `PersistRace`: remembered decisions, with atomic calls and at the grain of
  the locks. `Mirror`: `--same-port`. `Transport`: which connection tunnels dial over. `ShortRuns`: runs in which a
  documented promise fails.

Beside it: `Policy`, `PortSets`, `Schemes`, `Settings`, `Services`, `Merge`, `Framing`, `Resolve`, `Supervisor`, `Table`,
with `Text` and `Wrappers` for the little that is taken from a standard library.

Where the code differs from what its documentation says, the model follows the code:

- `--same-port` is documented never to remap (README.md, "It uses the same port number"). A pin to another port
  is tried first even so, and so is a remembered assignment, which outlives the row and its pin.
  `Mirror.SamePortIsKept` gives the exact condition; `ShortRuns.SamePortBreaks` is a run to a row without a pin
  that is remapped.
- A reconnect is documented to reclaim the same local ports unless another process takes them. It also moves a
  tunnel whose pin was busy before and is free now, and opens ports that failed before;
  `Reconnect.ReconnectIsExact` gives the exact condition, `ShortRuns.BusyPinIsUnsafe` a run to where it fails.
- `ForwardNow` and `TryLocalPort` are documented to be for the session only. While such a choice stands, it is in
  the settings exactly if it was there before or some later remembered decision about the same port, even a
  label, has written it along (`Decisions.ForwardNowIsWritten`, `Decisions.TriedPortIsWritten`).
- A decision is written to the settings some time after it was made. Rows and settings agree at all times exactly if
  no scan overtakes a decision on its way: that its port goes and comes back between the read and the write, when
  something else was remembered (`PersistRace.RememberedUnlessOvertaken`, `PersistRace.OvertakenHappens`).

Assumptions about the outside: listening on a positive port succeeds if and only if the port is a port number
that neither this process nor anybody else keeps; within one allocation the rest of the machine holds still.
What an IP address is (`IpRules`) and lower-casing are parameters. Scans come from the prober, so every service is
filed under its own port, from 1 to 65535 (`Merge.Merge` proves it).

## Model

| member | source | states |
|---|---|---|
| TunnelRuns.RunsHold | internal/tunnel/manager.go:224-320 | over every run and map order: the listeners held are exactly those of live tunnels, no two share a port, each is the allocator's remembered one, a tunnel is marked remapped iff its ports differ; before Close the log replays to the live tunnels and every row agrees with a fresh evaluation |
| TunnelRuns.AfterClose | internal/tunnel/manager.go:677-690 | after Close no listener is held and nothing is live |
| TunnelRuns.StatusTells | internal/tunnel/manager.go:394-445 | in every run: a row shown as skipped is not wanted, offline means wanted without a link, with the link up active means wanted and not failed; a hidden row is filtered and not wanted |
| Standing.DecisionStands | internal/tunnel/manager.go:364-370 | in every run before Close, under every policy: a row switched on has a tunnel iff the link is up and it has no error; one switched off has none and says so |
| Standing.PolicyStands | internal/tunnel/policy.go:92-118 | in every run before Close: a row left to the policy and not kept through a pause has a tunnel iff the link is up, it has no error, nothing is paused, and exclusion, inclusion, window, binds and the first scan allow it, said of ranges, binds and scans; a kept one iff the link is up and it has no error |
| Standing.HiddenStands | internal/tunnel/manager.go:439-445 | a row is left out of the table iff it is left to the policy, not kept, and the configured sets, window or bind rule leave it out |
| Standing.AfterForwardNow | internal/tunnel/manager.go:521-544 | nothing happens to a port switched off; any other is on, keeps its tunnel or gets one if there is a link and its own port number can be had |
| Standing.AfterCycleMode | internal/tunnel/manager.go:493-514 | automatic goes to on, which forwards; on to off, which closes the tunnel with that reason; off to automatic |
| Standing.AfterSetLocalPort | internal/tunnel/manager.go:595-628 | the tunnel of a forwarded service moves to the port given, and for zero to the remote port's number, if that can be had |
| Sightings.RowsShowTheLastSighting | internal/tunnel/manager.go:255-262 | in every run a row has port, binds and process of the last scan that lists it, and the last command line any scan has told since the row was made |
| Reports.StepReasons | internal/tunnel/manager.go:285-293 | the reason of every closing: ruled out, went away, disconnected or relocated, as the call says; only attempts to open fail |
| Reports.ApplyEvent | internal/tunnel/manager.go:285-320 | one reconciliation reports at most one event, a closing with the row's skip reason and a failure only when it is news |
| Reports.ErrorsWereReported | internal/tunnel/manager.go:304-312 | in every run, every error a row shows has been reported |
| Reports.DialsItsService | internal/tunnel/manager.go:313-318 | in every run, a live tunnel dials the address its service had when the tunnel was opened |
| TunnelRuns.EventsTellTheTunnels | internal/tunnel/manager.go:262-319 | per port, opened and closed alternate, a close names its opening's local port, and the last event tells whether and where the port is open |
| TunnelRuns.BalancedAlternates | internal/tunnel/manager.go:379-391 | a log in which only closed ports open and only open ones close alternates port by port |
| TunnelInvariants.StepCoherent | internal/tunnel/manager.go:224-690 | every call keeps ownership of ports and, unless it is Close, the correspondence of log and tunnels |
| TunnelInvariants.StepReconciled | internal/tunnel/manager.go:285-320 | every call but Close leaves each row with a tunnel iff it is wanted, the link is up and it has no error, and with the skip reason of a fresh evaluation |
| TunnelInvariants.ApplyCoherent | internal/tunnel/manager.go:285-320 | one reconciliation keeps port ownership and the log |
| TunnelInvariants.ApplyAgrees | internal/tunnel/manager.go:285-320 | one reconciliation brings its row into agreement |
| TunnelInvariants.ApplyAllReconciles | internal/tunnel/manager.go:485-487 | reconciling every row once brings all of them into agreement |
| TunnelInvariants.OwnersAcquire | internal/tunnel/alloc.go:101-106 | taking a free port keeps ownership injective, remembered and complete |
| TunnelInvariants.OwnersRelease | internal/tunnel/forward.go:186-191 | releasing a tunnel's port keeps ownership injective, remembered and complete |
| TunnelInvariants.RelocateCoherent | internal/tunnel/manager.go:606-615 | forgetting the assignment before closing the tunnel breaks nothing |
| TunnelFrames.StepRows | internal/tunnel/manager.go:224-690 | what every call does to every single row, to the listed ports and to the settings, whatever ports are free |
| TunnelFrames.MissAllRows | internal/tunnel/manager.go:265-277 | one more miss for every listed port the scan lacks, and removal at the end of the grace period |
| TunnelFrames.ObserveAllRows | internal/tunnel/manager.go:236-263 | each scanned port is refreshed once, from the row and the settings before the scan |
| TunnelLog.OpenedWasLive | internal/tunnel/manager.go:319 | every opening a run reports was a live tunnel in a later state |
| TunnelLog.StepOpens | internal/tunnel/manager.go:304-319 | what a call reports as opened is open when it ends |
| Reconnect.ReconnectIsExact | internal/tunnel/manager.go:655-674 | losing and regaining the link restores every tunnel's local port and remap mark, whatever else happens on the machine short of taking those ports, if and only if no tunnel sits elsewhere than on an obtainable pin and no wanted port failed that could succeed now |
| Reconnect.ReconnectInRuns | internal/tunnel/manager.go:655-674 | the same in every state of every run with the link up |
| Reconnect.PlainStateIsSafe | internal/tunnel/alloc.go:77-97 | it holds when every wanted port has a tunnel and every pin is unset or where the tunnel is |
| Reconnect.SafeIsRestored | internal/tunnel/manager.go:668-670 | the sorted loop gives every port back, by induction over the ports |
| Reconnect.SafeGetsItBack | internal/tunnel/alloc.go:77-89 | at its turn a safe port's old local port is the first free candidate |
| Reconnect.UnsafeIsNotRestored | internal/tunnel/manager.go:668-670 | an unsafe state does not come back even when nobody else uses any port |
| Reconnect.SparePort | internal/tunnel/alloc.go:93-97 | while a listed port has no tunnel, some local port is not held |
| ShortRuns.BusyPinIsUnsafe | internal/tunnel/alloc.go:77-81 | a run to a state from which a reconnect is not exact: a pin that was taken when it was set and is free later |
| Window.RowsAreTheWindow | internal/tunnel/manager.go:256-277 | in every run the listed ports are those of one of the last grace scans since the last drop, or, with fewer scans, those listed at the drop; the counter is the number of scans missed in a row |
| Window.UnionOfScans | internal/tunnel/manager.go:265-277 | while the link never drops, the listed ports are the union of the last grace scans |
| Window.ListedStep | internal/tunnel/manager.go:655-665 | how one more scan or drop moves the window |
| Pause.PausingClosesNothing | internal/tunnel/manager.go:470-487 | setting only paused leaves every live tunnel as it is |
| Pause.PauseHolds | internal/tunnel/manager.go:364-376 | during a pause an automatic port is wanted iff it has been listed and automatic without interruption and was live when the pause began |
| Pause.NothingNewOpens | internal/tunnel/manager.go:371-373 | an automatic port live during a pause was live at its beginning |
| Pause.NothingNewIsReported | internal/tunnel/manager.go:371-373 | an opening reported for an automatic port during a pause is one coming back |
| Pause.ResumingClosesNothing | internal/tunnel/manager.go:477-487 | resuming with the policy of before closes no tunnel whose service still has the same binds |
| Pause.KeepMeansPaused | internal/tunnel/manager.go:138-141 | in every run, kept rows are automatic and the policy is paused |
| Pause.KeptThroughout | internal/tunnel/manager.go:470-503 | throughout a pause, kept means kept from its start and undisturbed since |
| Baseline.PreexistingIsFirstScan | internal/tunnel/manager.go:229-242 | in every run a row is pre-existing iff the first scan lists its port |
| Baseline.BaselineStaysClosed | internal/tunnel/policy.go:92-118 | with existing off, a port of the first scan that is never included and stays automatic never gets a tunnel and is never reported as opened |
| Decisions.DecisionsAreRemembered | internal/tunnel/manager.go:244-253 | in every run, label, mode, pin and pinned scheme of a port that no session-only call named are what the settings say |
| Decisions.ComesBackTheSame | internal/tunnel/manager.go:236-277 | a port that goes and is seen again comes back with the decisions it had |
| Decisions.OnlyPersistWrites | internal/tunnel/manager.go:631-650 | a stored entry changes only by a call that persists that very port |
| Decisions.ObservationKeepsDecisions | internal/tunnel/manager.go:324-335 | traffic changes no decision and nothing of a row with a pinned scheme |
| Decisions.SettingsTellLastWrite | internal/tunnel/manager.go:631-650 | in every run the settings of a port are unchanged, or hold the decisions of its row right after the last call that wrote them |
| Decisions.ForwardNowIsWritten | internal/tunnel/manager.go:516-544 | while the mode that ForwardNow set stands, the settings hold it iff they did before or a later call wrote the port |
| Decisions.TriedPortIsWritten | internal/tunnel/manager.go:586-628 | the same of the local port that TryLocalPort set |
| Decisions.UnwrittenIsForgotten | internal/tunnel/manager.go:236-277 | a session-only choice that no call wrote is gone when the port goes and comes back |
| Decisions.SessionChoiceIsWrittenLater | internal/tunnel/manager.go:516-577 | the shortest run: ForwardNow writes nothing, but the next label on the port writes its mode |
| PersistRace.RememberedUnlessOvertaken | internal/tunnel/manager.go:631-650 | in every run and interleaving of the lock sections, all listed ports but the one with a decision on its way agree with the settings at all times, iff no write was overtaken by its port going and coming back with something else remembered |
| PersistRace.WrittenAgrees | internal/tunnel/manager.go:641-649 | one write leaves its row in agreement iff its port did not go and come back since the read, or the same was remembered already |
| PersistRace.QuietMeansRemembered | internal/tunnel/manager.go:492-514 | in every run in which no write was overtaken, when nothing is pending every row agrees with the settings |
| PersistRace.OvertakenHappens | internal/tunnel/manager.go:641-649 | a run in which a write is overtaken and leaves a row and the settings apart |
| Mirror.SamePortMirrors | internal/tunnel/alloc.go:60-98 | under --same-port, a port whose own pin could never get another port has its tunnel and its remembered assignment on the remote port's number, in every run, whatever the other pins |
| Mirror.SamePortIsKept | internal/tunnel/alloc.go:60-98 | under --same-port the allocator never remaps, whatever is free, iff neither the pin nor the remembered assignment is another port number |
| ShortRuns.SamePortBreaks | internal/tunnel/alloc.go:82-86 | for every port and policy that forwards it, a run under --same-port to a row without a pin that is forwarded to another port |
| Transport.TunnelsFollowTheLink | internal/app/app.go:320-396 | in every run driven by a supervisor, with any other calls in between, every live tunnel dials over the present connection |
| Transport.DialerIsLatest | internal/tunnel/manager.go:655-657 | the manager's connection is the last one installed, or none after a drop |
| Transport.StepDials | internal/tunnel/manager.go:300-318 | every call keeps tunnels on the present connection, if a connection is installed only over none |
| Supervisor.Supervisor.Run | internal/app/app.go:320-396 | in every world: every scan that arrives is handed on, in order and over its own connection; every connection served is closed once, right after it is dropped; one wait in every turn not cut short; connections are installed only over none, and waits follow the backoff |
| Supervisor.Supervisor.TakeTurn | internal/app/app.go:324-394 | one turn of the loop, with its exact calls and the next backoff |
| Supervisor.Supervisor.Serve | internal/app/app.go:356-373 | the scans of a session in order, then the link is dropped before the connection is closed, once |
| Supervisor.SessionDoes | internal/app/app.go:356-373 | a session hands on all its scans over its connection, leaves none, and closes that connection once, after the drop |
| Supervisor.CallsServe | internal/app/app.go:320-396 | the same of the calls of any world |
| Supervisor.Supervisor.TakeClient | internal/app/app.go:310-316 | detaches the connection so that it is closed once |
| Supervisor.NextDelay | internal/app/app.go:434-440 | the backoff runs through min(2^(k-1), 30) seconds |
| Supervisor.Delays | internal/app/app.go:434-440 | the delays are 1, 2, 4, 8, 16 and then 30 seconds |
| Allocation.AnswerIsHonest | internal/tunnel/alloc.go:60-98 | a bound port was free, and the remap mark tells whether it differs |
| Allocation.AnswerMeans | internal/tunnel/alloc.go:60-98 | pin, remembered, mirrored and then any port, in terms of which ports anybody has; a refusal names the first port tried |
| Allocation.FirstFree | internal/tunnel/alloc.go:77-89 | the first candidate that can be had, and none only if none can |
| Machine.PortTable.Listen | internal/tunnel/alloc.go:66-75 | a port comes iff it is a port number nobody has; port zero yields such a port or fails |
| Machine.Allocator.Allocate | internal/tunnel/alloc.go:60-98 | pin, remembered port, mirrored port, then any port unless ports must be the same; what is bound is remembered, a failure changes nothing |
| Machine.Allocator.Forget | internal/tunnel/alloc.go:109-113 | drops the remembered port of one remote port |
| Manager.Manager.constructor | internal/tunnel/manager.go:198-220 | a new manager lists nothing and takes over what the allocator remembers; an unset grace is two scans and an unset port ceiling 65535 |
| Manager.Manager.WantLocked | internal/tunnel/manager.go:364-376 | the user's standing decision if there is one, else the pause and the policy |
| Manager.Manager.ApplyLocked | internal/tunnel/manager.go:285-320 | has the effect of Apply on values, touching no other entry |
| Manager.Manager.CloseLocked | internal/tunnel/manager.go:379-391 | closes the tunnel and releases its port at once, and the later background close releases nothing again |
| Manager.Manager.Sync | internal/tunnel/manager.go:224-281 | has the effect of Sync on values for the orders in which its two loops ran |
| Manager.Manager.SetPolicy | internal/tunnel/manager.go:470-490 | has the effect of SetPolicy on values, by ascending port |
| Manager.Manager.SetDialer | internal/tunnel/manager.go:655-674 | has the effect of Connect or Disconnect on values, by ascending port |
| Manager.Manager.CycleMode | internal/tunnel/manager.go:493-514 | has the effect of CycleMode on values and returns the new mode |
| Manager.Manager.ForwardNow | internal/tunnel/manager.go:521-544 | has the effect of ForwardNow on values and reports a port not listed, off or unopened |
| Manager.Manager.SetLocalPort | internal/tunnel/manager.go:595-628 | has the effect of SetLocalPort on values and reports a port out of range, not listed or unopened |
| Manager.Manager.SetScheme | internal/tunnel/manager.go:548-561 | has the effect of SetScheme on values |
| Manager.Manager.CycleScheme | internal/tunnel/manager.go:339-355 | has the effect of CycleScheme on values and returns the new scheme |
| Manager.Manager.SetLabel | internal/tunnel/manager.go:565-577 | tidies and stores the label, or reports a port not listed |
| Manager.Manager.ObserveScheme | internal/tunnel/manager.go:324-335 | has the effect of ObserveScheme on values |
| Manager.Manager.Persist | internal/tunnel/manager.go:631-650 | writes the row's present decisions to the host's entry |
| Manager.Manager.States | internal/tunnel/manager.go:448-460 | exactly the rows that are not hidden, each whole and with its status, by ascending port |
| Manager.Manager.Close | internal/tunnel/manager.go:677-690 | has the effect of Close on values |
| Manager.SortPorts | internal/tunnel/manager.go:707-714 | the listed ports in ascending order |
| Settings.StoreRoundTrip | internal/config/config.go:344-377 | storing a decision and reading it gives it back; only a decision that says nothing leaves no entry; no other port changes |
| Settings.StoredWords | internal/config/config.go:57-97 | the words a decision is stored in |
| Store.Store.SetPort | internal/config/config.go:352-377 | the entry reads back as stored, all zero when it says nothing; no other port, host or presentation changes; a change marks the store dirty |
| Store.Store.SetViewPrefs | internal/config/config.go:161-191 | the presentation reads back, an unnamed order as the default one; no port setting changes |
| Store.PrefsRoundTrip | internal/config/config.go:141-191 | a stored presentation reads back exactly as given iff its order is named, whatever was stored before; storing what was read changes nothing; the defaults, and the older view setting; only a host with the defaults and no ports is dropped |
| Policy.Policy.EvalForwards | internal/tunnel/policy.go:92-118 | exactly when a service is forwarded: inclusion beats window, bind rule and baseline, but neither exclusion nor pause |
| Policy.Policy.FilteredIsConfiguration | internal/tunnel/policy.go:71-85 | exactly when the reason is a filter, which never depends on pause or baseline |
| Policy.Policy.FilterReasons | internal/tunnel/policy.go:92-111 | which filtered reason a service has |
| Policy.Policy.VisibleSkips | internal/tunnel/policy.go:110-116 | which of the visible reasons a skipped service has |
| Forwarder.Forwarder.CopyReply | internal/tunnel/forward.go:127-153 | for any chunking, what is written is a prefix of the reply and all of it unless a write fails; the count is the bytes written; the report, if any, is of the first read, and is made at most once per forwarder |
| Forwarder.Forwarder.Copy | internal/tunnel/forward.go:151 | relays everything in order up to the first failed write |
| Forwarder.Forwarder.Stop | internal/tunnel/forward.go:186-191 | releases the local port the first time only |
| Forwarder.Forwarder.Close | internal/tunnel/forward.go:195-198 | after Stop it leaves the ports alone, whoever holds them |
| Schemes.FirstBytesSuffice | internal/tunnel/scheme.go:73-85 | the first bytes tell as much as the whole reply unless they end inside the word HTTP/ |
| Schemes.SniffMeans | internal/tunnel/scheme.go:73-85 | https iff the first byte is that of a TLS handshake or alert, http iff the reply begins with HTTP/ |
| Schemes.SchemeCycle | internal/tunnel/scheme.go:20-30 | unknown, http, https and back |
| Framing.RoundTrip | internal/probe/monitor.go:104-178 | for a READY line naming any of the tools, plain frames and an unfinished last frame: the tool and system are announced and exactly the frames' contents are handed on, in order |
| Framing.ReadyAnnounces | internal/probe/monitor.go:121-140 | a READY line of any words announces the tool that the third names and the system of the fourth, with the defaults for missing ones, and any other third word ends the stream |
| Framing.ErrorStops | internal/probe/monitor.go:118-119 | an ERROR line ends the stream with its text |
| Framing.NoiseIsIgnored | internal/probe/monitor.go:146-165 | plain lines outside frames and stray END markers do nothing |
| Framing.TextReads | internal/probe/monitor.go:155-162 | the collected text is the lines, each ended by a line break |
| Framing.DependsOnlyOnScanAndMode | internal/probe/monitor.go:141-165 | what is handed on from a SCAN marker on depends only on the mode and the lines since |
| Framing.Consume | internal/probe/monitor.go:104-178 | the loop hands on what the lines up to where it stopped mean, stops for the right reason, and on a cancellation at the first line that asks |
| Framing.FrameDelivers | internal/probe/monitor.go:141-165 | a frame hands on its content whatever came before |
| Framing.FrameOpens | internal/probe/script.go:53-75 | an unfinished frame is collected, not handed on |
| Resolve.Monitor.Build | internal/probe/monitor.go:196-215 | known command lines are filled in and nothing else changes, and exactly the processes without a line or a mark are asked about, once each |
| Resolve.Monitor.ResolveFails | internal/probe/monitor.go:224-231 | a failed lookup's processes may be asked about again |
| Resolve.Monitor.ResolveSucceeds | internal/probe/monitor.go:233-238 | an answered lookup's lines are learnt and its processes not asked about again |
| Resolve.BalanceMeans | internal/probe/monitor.go:196-239 | in every interleaving lookups under way are disjoint, a process is answered for at most once, and asked about at most once more than its lookups failed |
| Resolve.AskKeepsBalance | internal/probe/monitor.go:205-213 | asking keeps the books of the protocol |
| Resolve.EndKeepsBalance | internal/probe/monitor.go:224-238 | the end of a lookup keeps the books of the protocol |
| Merge.Merge | internal/probe/service.go:177-217 | one service per listed port, with exactly the protocols and addresses listed for it, sorted by protocol and address without duplicates, and the first known process number and name |
| Merge.MergedMeans | internal/probe/service.go:177-217 | a merged snapshot in terms of the listeners' own fields |
| Merge.StringLessMeans | internal/probe/service.go:208-213 | text is ordered by its first difference |
| Merge.OrderDoesNotMatter | internal/probe/service.go:177-217 | the same sockets in any order give the same ports with the same binds in the same order |
| Merge.SameDialAddress | internal/probe/service.go:115-142 | and are dialed at the same address |
| Merge.DialAddr | internal/probe/service.go:115-142 | the ranking loop finds IPv4 loopback if the service listens there or everywhere, else its first loopback address, else its first address |
| Merge.DialHostMeans | internal/probe/service.go:98-142 | the host dialed, without ranks: 127.0.0.1 if the service listens there or everywhere or nowhere, else its first loopback address, else its first address |
| Merge.ListenerIsDialed | internal/probe/service.go:115-142 | a listener on 127.0.0.1 or on any spelling of every interface is dialed at 127.0.0.1 and its port |
| Services.TrimMeans | internal/probe/service.go:81-96 | brackets are taken off both ends, all of them and nothing else |
| Merge.DialedOnARealAddress | internal/probe/service.go:98-142 | the dialed host is never a wildcard, and is loopback when the service is loopback-only |
| Merge.BindOrder | internal/probe/service.go:208-213 | the sort's comparison is total and asymmetric |
| Table.Order.StrictTotalOrder | internal/ui/sort.go:83-136 | on rows with distinct remote ports every key, direction and grouping is a strict total order |
| Table.Order.SortStates | internal/ui/sort.go:83-136 | sorting in place gives the stable arrangement |
| Table.Order.CanonicalOrder | internal/ui/sort.go:83-136 | rows with distinct remote ports have one arrangement, whatever their order before |
| Table.Order.ArrangedIsSorted | internal/ui/sort.go:135 | the arrangement is sorted and a permutation |
| Table.Order.LiveRowsFirst | internal/ui/sort.go:122-134 | with inactive rows last, live rows form a prefix and both groups are sorted as chosen |
| Table.Order.ReversedOrder | internal/ui/sort.go:119-121 | reversing the direction reverses the table when inactive rows are not set apart |
| Table.Order.SortsBy | internal/ui/sort.go:83-118 | ports and names sort upwards, age, traffic and connections downwards, ties by remote port |
| Table.Order.ArrangeAndKeep | internal/ui/sort.go:67-76 | leaving rows out and sorting commute |
| Table.HidePreexisting | internal/ui/sort.go:67-76 | keeps exactly the rows that are live or not pre-existing, in order |
| Table.FilterStates | internal/ui/sort.go:140-164 | keeps exactly the rows in whose command, label, process, ports or status the query occurs, in order |
| PortSets.ParsePortSet | internal/tunnel/portset.go:18-32 | the sorted set has a port iff some field of the text spells a range with it; the first bad field is the error |
| PortSets.TwoPorts | internal/tunnel/portset.go:18-32 | commas, blanks and tabs separate, any number of them |
| PortSets.BadPorts | internal/tunnel/portset.go:34-62 | which numbers and ranges are accepted, and the error of the others |
| PortSets.PrintRoundTrip | internal/tunnel/portset.go:18-88 | parsing what was printed succeeds and means the ranges printed |
| PortSets.Reparse | internal/tunnel/portset.go:18-88 | a specification parsed, printed and parsed again has the same ports |
| PortSets.Print | internal/tunnel/portset.go:78-88 | joins the ranges in decimal |
| PortSets.RangeRoundTrip | internal/tunnel/portset.go:34-88 | a printed range parses to itself, is a solid field, and is one number for a single port |
| Text.AtoiOfItoa | internal/tunnel/portset.go:53-62 | decimal printing and parsing agree |
| Text.ItoaMeans | internal/tunnel/portset.go:78-88 | decimal digits, the last for the remainder by ten |
| Text.TidyMeans | internal/tunnel/manager.go:566 | tidying keeps the words, leaves one space between any two and none elsewhere, and is done once and for all |
| Text.FieldsMean | internal/tunnel/portset.go:18-24 | what splitting at separators is, however many follow one another |
| Text.TrimSpaceMeans | internal/probe/monitor.go:119 | blanks are taken off both ends, all of them and nothing else |
| Text.OccursMeans | internal/ui/sort.go:154-164 | a query occurs if something stands before it and something after |

## Left out

- SSH transport, authentication, host keys, prompts, self-update and the remote shell scripts.
- Sockets, goroutines and timers: a call is one atomic step, events are in the order of the lock sections although
  they are emitted after unlocking, and background draining of connections changes nothing here.
- Clocks and counters: first-seen and creation times, byte and connection counts of a tunnel are not part of a row.
- The text parsers for `ss`, `lsof`, `netstat`, `/proc` and command lines; splitting the stream into lines.
- YAML and JSON, the file behind the settings, the legacy import and the older `View` setting's own setter.
- The user interface apart from the table order; the browser bridge apart from the two calls it makes.
- Supervisor.Supervisor.Run: the calls it makes are recorded rather than made on a `Manager` object; `Transport` ties
  the recorded calls to runs of the manager. Attempt numbers and status messages are not part of them.
- Supervisor.Supervisor.TakeTurn: when a shutdown is asked for during a turn is a flag of the world.
- Supervisor.Supervisor.Serve: without the browser bridge that starts and stops with a session.
- Machine.Allocator.Allocate: the rest of the machine holds still between the tries of one call; it may do anything
  between calls.
- Forwarder.Forwarder.CopyReply: connections are relayed one after another; that only one of several at once gets to
  classify rests on the atomic compare-and-swap, modelled as one assignment.
- Forwarder.Forwarder.Close: without the wait for connections in flight.
- TunnelModel: the address a service is dialed at is a parameter of `Config`; `Merge.DialAddr` computes it. It is fixed
  when a tunnel opens and does not follow later changes of the binds, as in the code.
- Decisions.DecisionsAreRemembered: takes a call and its write to the settings as one step; `PersistRace` takes them apart.
- Decisions.ComesBackTheSame: the same.
- PortSets.ParsePortSet: of several bad fields the first is reported; the wording of error messages is not part of it.
