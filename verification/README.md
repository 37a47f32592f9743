# Verified model of the H.A.C.K. control panel

H.A.C.K. is a web panel that runs Ansible against a homelab fleet. This project models the parts of the panel whose
correctness depends on more than one function, and proves what they promise: the job pool and the run lock it shares
with the scheduler and the command line, the group graph with job targeting and configuration overlays, the Hosts forest,
the ANSI renderer of job logs, the schema migration, and the reconcilers for host state, discoveries, inventory,
scan targets and logins.

Code that changes things in place is a class or a method with loops, proved against functions that give the new state;
what is promised over all inputs, all orders and all runs is then proved about those functions. The modules called `Laws`, and a
law beside each smaller part, say what those functions come to in terms of the tables, texts and events alone. Database
tables are maps, sets or sequences of rows, and one transaction or one event-loop callback is one step.
`dafny verify dfyconfig.toml` checks everything.

| file | models |
|---|---|
| Options, Text, Lists, Graph | optional values, Python text handling, sums and sorting, reachability |
| Groups, GroupStore, Overlay | group graph searches, the group editor, effective plugin variables |
| Forest, ForestBuilder, ForestFacts, ForestLaws, ForestOrder, ForestShape, OverlayFacts, HostLinks | the Hosts forest, the loops that build it, what it shows, where and in what order, where its nodes hang and what they are called, creation and deletion of hosts |
| JobPool, JobPoolFacts, JobPoolRuns, JobPoolLaws, JobManager | pool, lock and jobs table as a state machine shared with the scheduler child, its invariant, what every run of it guarantees, what each event does, and the classes that implement it |
| HostState, LogStream | the per-host state register, the live job log |
| Ansi, Sgr, AnsiHtml, AnsiLaws | escape sequences, colour state, rendering and stripping, what a sequence means |
| Schema, Migration, UpgradeLaws | guarded statements and their convergence, the migration itself, what becomes of the rows |
| Discovery, DiscoveryFacts, DiscoveryRuns, DiscoveryLaws | the discoveries table, its invariant, runs of scans and decisions, what each of them writes |
| Inventory, NetScan, NetScanFacts, Lockout | fact tracking, scan target expansion and what it denotes, login lockout |

Where the code and its own documentation or comments disagree, the model follows the code:

- the job pool admits 5 jobs by default, clamped to 1..10, not 1 (webpanel/app/jobs.py:74);
- queued jobs "simply wait and a timer retries" (webpanel/app/jobs.py:79) where the dispatcher runs on the event loop, but
  the settings form calls it from a worker thread, where no timer can be armed and no coroutine created:
  `JobPoolRuns.WakeSurvivesThreadIff` says exactly when that goes well, `SettingsStrandAJob` and `SettingsBlockTheLock` show
  it going wrong;
- startup marks running rows as orphans of the previous process, but the scheduler child's runs outlive it and write their
  outcome later (`JobPoolRuns.OutcomeIsFinalIff` and `ScheduledRowSweptIff` say exactly which rows are affected,
  `RestartFailsALiveRun` shows one);
- group overlays apply by number of ancestors, then id, not "in id order" (webpanel/app/plugins.py:217);
- the early return of `resolve_config` for a plugin without a database row skips the removal of secret variables
  (`Overlay.UnregisteredLeaksIffSecretHasDefault` says exactly when that shows);
- running the migration twice is the same as once only for the table shapes of `Migration.TwiceIsOnceIffShaped`
  (`TwiceCanDiffer` has another one), and a start never completes on tables without columns that no release adds
  (`Migration.StartsIff` says which);
- an unreachable host is to end failed (webpanel/app/ansible_layer/results.py:152), but the pattern for recap lines skips
  that count, and a host with a line and no failed task ends ok or pending (`HostState.UnreachableIsMissed`);
- a job log may contain the end marker as output, which ends its streams early (`LogStream.StreamsEnd` says exactly when);
- `last_status` is not settled by the newest job alone (`HostState.LastStatusConvergesExactly`);
- confirming a rename to a name another host has leaves the rename to surface again
  (`DiscoveryRuns.ConfirmedRenameResurfacesIff`), and confirming a network find through the discovery list registers
  no host (`DiscoveryRuns.ConfirmRegisters`);
- two nodes of the forest can share a `node_id` when a stack is named after a path, though their paths differ
  (`ForestShape.NodeIdsDistinct`, `JoinedIdsCanCoincide`);
- removing escape sequences once can leave one behind (`AnsiHtml.StripTwiceIsOnceIff` says exactly when,
  `StripCanLeaveASequence` shows one).

## Model

| member | source | states |
|---|---|---|
| Groups.ChildEdges | webpanel/app/groups.py:15-22 | the dictionary of child sets holds exactly the rows of the edge table |
| Groups.ReachableGroupIds | webpanel/app/groups.py:25-36 | the worklist ends on every finite graph, cycles included, and returns exactly the reflexive-transitive closure of the selection |
| Groups.DescendantGroupIds | webpanel/app/groups.py:39-41 | exactly the other groups at least one edge below |
| Groups.AncestorGroupIds | webpanel/app/groups.py:44-60 | exactly the groups with a path of at least one edge to the group |
| Groups.WouldCreateCycle | webpanel/app/groups.py:63-65 | true exactly when the child already reaches the parent |
| Groups.CycleCheckIsExact | webpanel/app/groups.py:63-65 | on an acyclic graph the new edge keeps it acyclic if and only if the test says no |
| Groups.ExpandGroupHosts | webpanel/app/groups.py:68-80 | exactly the members of all groups reachable from the selection |
| Groups.ExpansionDistributes | webpanel/app/groups.py:68-80 | expanding a union of selections is the union of the expansions |
| Groups.ExpansionAbsorbsDescendants | webpanel/app/groups.py:68-80 | adding a group that is already reached changes nothing |
| Groups.EffectiveGroupIdsForHost | webpanel/app/groups.py:83-100 | all groups that hold the host directly or through subgroups, sorted by number of ancestors and then id |
| Groups.AncestorsMirrorDescendants | webpanel/app/groups.py:39-60 | ancestors and descendants are converse, self excluded, if and only if the graph is acyclic |
| Groups.AncestorsGrow | webpanel/app/groups.py:99-100 | on an acyclic graph the ancestor set strictly grows along every path, so its size is a depth |
| Groups.OverlayOrderIsTopological | webpanel/app/groups.py:99-100 | on an acyclic graph a group never comes after one of its descendants in the overlay order |
| Groups.EffectiveMeansTargeted | webpanel/app/groups.py:68-100 | a group is in a host's overlay exactly when expanding the group targets the host |
| GroupStore.Store.AddGroup | webpanel/app/routers/groups.py:29-46 | refuses an empty or taken name, else there is one more row, with that name; nothing else changes |
| GroupStore.Store.ReplaceChildren | webpanel/app/routers/groups.py:110-120 | whatever order the children are tried in, the accepted ones are those that do not reach the group over the edges of the other groups |
| GroupStore.AcceptOne | webpanel/app/routers/groups.py:117-120 | whether a child is accepted does not depend on the children accepted before it |
| GroupStore.Store.UpdateGroup | webpanel/app/routers/groups.py:83-123 | when done, the members are the submitted hosts, the children the submitted ones that close no cycle, the name the submitted one if any, and all other rows are as before; else one of the error outcomes, each if and only if it is due, and nothing changes |
| GroupStore.Store.DeleteGroup | webpanel/app/routers/groups.py:126-144 | exactly the group's row, its memberships and its edges in both directions go |
| GroupStore.UpdateKeepsAcyclic | webpanel/app/routers/groups.py:110-120 | the edited graph is acyclic if the old one was |
| GroupStore.RejectedWouldCycle | webpanel/app/routers/groups.py:117-119 | a child that was turned down would close a cycle in the result |
| GroupStore.ApplyKeepsSound | webpanel/app/routers/groups.py:29-144 | every edit keeps the graph acyclic, the references valid and the names unique |
| GroupStore.EditsKeepSound | webpanel/app/routers/groups.py:29-144 | so does every sequence of edits from no groups |
| GroupStore.UpdateFailsOnUnknownIds | webpanel/app/routers/groups.py:99-120 | an edit fails on foreign keys exactly when a submitted host or child does not exist |
| GroupStore.ApplyLaw | webpanel/app/routers/groups.py:29-144 | the same row by row of every edit in a sequence of them |
| Overlay.ResolveConfig | webpanel/app/plugins.py:214-254 | each non-secret variable has the value of the scope that supplies it (host, else last group in overlay order, else global), else its default; no secret variable is returned for a registered plugin |
| Overlay.MostSpecificGroupWins | webpanel/app/plugins.py:243-249 | on an acyclic graph no effective group below the supplying one sets the variable |
| Overlay.SupplierIsUnique | webpanel/app/plugins.py:229-249 | at most one scope supplies a variable |
| Overlay.UnregisteredLeaksIffSecretHasDefault | webpanel/app/plugins.py:223-225 | the early return withholds all secret variables if and only if none of them has a default |
| Overlay.SecretDefaultCanLeak | webpanel/app/plugins.py:133-152 | a variable given a default among the fields and listed as secret besides, which leaks |
| Overlay.DefaultsKeys | webpanel/app/plugins.py:59-60 | the defaults cover exactly the variables some field gives a default |
| Overlay.DefaultsLaw | webpanel/app/plugins.py:59-60 | the default of a variable is the one of the last field that gives it one |
| ForestBuilder.MapChildren | webpanel/app/tree.py:39-42 | every host's list holds its guests, in table order |
| ForestBuilder.MapContainers | webpanel/app/tree.py:46-48 | every host's list holds its containers, in table order |
| ForestBuilder.Distribute | webpanel/app/tree.py:73-77 | elements are split by non-empty key, in order, the rest kept aside |
| ForestBuilder.BuildDocker | webpanel/app/tree.py:71-82 | the container nodes of a host, one per stack and then the standalone ones; which those are is in ForestLaws.ContainersLaw |
| ForestBuilder.BuildServer | webpanel/app/tree.py:61-103 | the recursion ends, whatever parent links exist elsewhere, and yields the host's subtree |
| ForestBuilder.BuildGroup | webpanel/app/tree.py:188-217 | the recursion over groups ends on any graph (fewer groups are left off the path each time) and yields the group's node |
| ForestBuilder.BuildHostForest | webpanel/app/tree.py:220-258 | the loops build the physical section followed by the group overlay |
| ForestFacts.CountServerNode | webpanel/app/tree.py:61-103 | a host's subtree shows a host or container once if its home is that host or below it, and never otherwise |
| ForestFacts.ShownOnceIffRooted | webpanel/app/tree.py:234-249 | the physical section shows a host or container exactly once when the chain of parents ends at a root, and never otherwise |
| ForestFacts.CountDocker | webpanel/app/tree.py:71-82 | a host's container nodes show each of its containers once and no other |
| ForestFacts.StackTotals | webpanel/app/tree.py:106-140 | stack totals and standalone containers add up to the host's containers |
| ForestLaws.ContainersLaw | webpanel/app/tree.py:71-82 | a container whose project is not blank is shown in the stack labelled with it, without the white space around it, and in no other, one without directly under its host; there is a stack for a project if and only if there is such a container |
| ForestLaws.StackNodeLaw | webpanel/app/tree.py:106-140 | a stack counts the containers of its project on the host, and those of them in state running |
| ForestLaws.BandsLaw | webpanel/app/tree.py:234-250 | a parentless host is shown under the band of its node if it has a guest type or is reached through Proxmox and names a node, else at the top; there is a band for a node if and only if it shows a host |
| ForestOrder.HostChildrenInOrder | webpanel/app/tree.py:69-82 | under a host come its guests by name, then the stacks by project, then the other containers by name or else id, upper and lower case alike |
| ForestOrder.PhysicalInOrder | webpanel/app/tree.py:245-250 | hosts at the top and under a band are ordered by name, bands by node as it is written |
| ForestOrder.RootKinds | webpanel/app/tree.py:245-248 | a host at the top is a virtualization host if it is marked as one or has guests |
| ForestOrder.Expandable | webpanel/app/tree.py:83-85 | a host can be expanded if and only if it is marked as virtualization host, has a guest or runs a container |
| ForestOrder.GroupLaw | webpanel/app/tree.py:195-217 | a group shows its subgroups by name, then its members by name as leaves, and says how many members it has |
| ForestOrder.TopsLaw | webpanel/app/tree.py:251-258 | the groups no group contains come by name as it is written |
| Lists.SortStable | webpanel/app/tree.py:69 | sorting leaves elements with equal keys in order |
| Lists.SortSorts | webpanel/app/tree.py:69 | and puts them in the order of their keys |
| Lists.LeqLaw | webpanel/app/tree.py:69 | which is that of the first characters that differ, a prefix before what it starts |
| ForestOrder.LowerLaw | webpanel/app/tree.py:69 | lower-casing a text changes its capital letters and nothing else |
| ForestShape.PhysicalHangs | webpanel/app/tree.py:61-185 | in the physical section every node is at its parent's depth plus one, names it and extends its id; siblings have different ids |
| ForestShape.ForestHangs | webpanel/app/tree.py:61-258 | so in the whole forest, group overlay included |
| ForestShape.NodeIdsDistinct | webpanel/app/tree.py:61-258 | as paths, no two node ids of the forest are equal, and each is as long as its node is deep |
| ForestShape.JoinedIdsDistinct | webpanel/app/tree.py:65 | nor are they as texts, where no stack or node name contains the separator |
| ForestShape.JoinedIdsCanCoincide | webpanel/app/tree.py:115 | two concrete paths with one text |
| ForestFacts.HostOpKeepsLinks | webpanel/app/routers/hosts.py:490-531 | adding a host below an existing one, and deleting a host with its containers and memberships, keep the parent links acyclic and every link, membership and container on existing hosts |
| ForestFacts.HostOpsKeepLinks | webpanel/app/routers/hosts.py:490-531 | so does every sequence of them |
| ForestFacts.SoundIsRooted | webpanel/app/tree.py:234-249 | with sound links every host's chain of parents ends at a root |
| ForestFacts.EveryHostOnce | webpanel/app/tree.py:234-249 | after any host additions and deletions every managed host and every container is shown exactly once |
| HostLinks.Hosts.AddHost | webpanel/app/routers/hosts.py:313-363 | a guest carries its type and node and is hung under its node's host, which is marked as virtualization host, any other host stands alone with neither; for the connection `proxmox` the picked containers are added instead; all other rows are kept; links stay sound |
| HostLinks.PickedExact | webpanel/app/routers/hosts.py:396-425 | the picker adds one host per picked vmid that was not registered, each a container under the node's host, and keeps the other rows but for the mark |
| HostLinks.Hosts.DeleteHost | webpanel/app/routers/hosts.py:513-531 | the guests are detached, the host is removed with its containers and group memberships (the declared cascades), nothing else changes; links stay sound |
| HostLinks.NodeLaw | webpanel/app/routers/hosts.py:428-451 | the first host, by id, among the virtualization hosts of that name, else among all virtualization hosts, else among the local ones; none exactly when there is neither |
| HostLinks.NewHostLaw | webpanel/app/routers/hosts.py:325-350 | a guest is of the type given, a virtual machine without one, on the node given or else this one; any other host has neither |
| HostLinks.PickLaw | webpanel/app/routers/hosts.py:396-425 | a picked container is a guest of this node under its own name or one made of its vmid, with the vmid after it if the name is taken, and marks the host it goes under; a registered one is skipped |
| HostLinks.DeleteLaw | webpanel/app/routers/hosts.py:513-531 | deleting takes out the host with its containers and memberships and leaves its guests without a parent; all else is as before |
| OverlayFacts.GroupNodeShows | webpanel/app/tree.py:188-217 | a group node shows exactly the hosts and groups reachable without passing through the groups on its path |
| OverlayFacts.TopGroupAgrees | webpanel/app/tree.py:188-217 | on any graph a top-level group shows, and counts, exactly the hosts a run on it targets |
| OverlayFacts.OverlayAgrees | webpanel/app/tree.py:251-258 | on an acyclic graph so does every group node of the overlay |
| OverlayFacts.OverlayShowsGroupsUnderTops | webpanel/app/tree.py:251-258 | the overlay shows exactly the groups below a parentless group |
| OverlayFacts.EveryGroupShown | webpanel/app/tree.py:251-258 | on an acyclic graph no group is missing |
| JobPoolFacts.StepKeeps | webpanel/app/jobs.py:174-293 | every callback, the settings form's dispatch on the event loop or in a worker thread, and every move of another process keep the invariant of pool, queue, lock, rows and history |
| JobPoolFacts.DispatchKeeps | webpanel/app/jobs.py:205-221 | a dispatch on the event loop restores the wake-up condition whatever the limit and queue were changed to |
| JobPoolRuns.MutualExclusion | webpanel/app/jobs.py:150-171 | in every run: while a panel job is active the panel holds the lock and nobody else is in a critical section; at most 10 jobs; outside draining the lock is held exactly when the pool is not empty |
| JobPoolRuns.WakeSurvivesThreadIff | webpanel/app/jobs.py:191-240 | a settings change dispatched in a worker thread, where no timer can be armed and no coroutine created, keeps the wake-up condition if and only if it finds nothing to start |
| JobPoolRuns.BootIsSound | webpanel/app/jobs.py:82-91 | a fresh pool is empty, with the lock free, and meets the invariant and the wake-up condition, so what follows applies to every run from it |
| JobPoolRuns.NoLostWakeup | webpanel/app/jobs.py:191-221 | in every run whose worker-thread dispatches all find nothing to start: outside draining a waiting job means a full pool of jobs with a coroutine, or an armed timer and an empty pool |
| JobPoolRuns.HarmDone | webpanel/app/routers/settings.py:115-120 | what any other such dispatch does: with the lock taken elsewhere it leaves the queue without a timer, else the head of the queue becomes a running job without a coroutine |
| JobPoolRuns.StrandedWaits | webpanel/app/jobs.py:191-203 | such a queue stays as it is, the lock free or not, until a submission, cancellation, settings change, drain or restart |
| JobPoolRuns.StuckHoldsTheLock | webpanel/app/jobs.py:223-240 | such a job keeps its slot, and the panel the lock, over every run without a restart; nobody else gets in |
| JobPoolRuns.SettingsStrandAJob | webpanel/app/routers/settings.py:115-120 | a concrete run to such a queue |
| JobPoolRuns.SettingsBlockTheLock | webpanel/app/routers/settings.py:115-120 | a concrete run to such a job |
| JobPoolRuns.JobsConserved | webpanel/app/jobs.py:174-221 | in every run: accepted ids without the dropped ones are, in order, the started ones and then the queued ones; none twice, none lost |
| JobPoolRuns.HistoryGrows | webpanel/app/jobs.py:205-221 | what was accepted, started or dropped stays so, hence no id starts twice |
| JobPoolRuns.RowsMatchMemory | webpanel/app/jobs.py:223-240 | in every run: a running row is an active panel job or a scheduled run, under way or dead without a trace; an active job's row is running, or cancelled if it was signalled; a queued row is a queued job or one refused while draining, and conversely |
| JobPoolRuns.FinishSettles | webpanel/app/jobs.py:277-284 | a finished job's row keeps a cancellation and otherwise follows the exit code |
| JobPoolRuns.OutcomeSticks | webpanel/app/jobs.py:174-293 | a row that shows an end keeps it over every run, restarts included, if it is a panel job's, or the scheduled run is over or has only to write the same |
| JobPoolRuns.OutcomeIsFinalIff | webpanel/app/ansible_layer/headless.py:178-203 | and only then: in any other case there is a run that overwrites it |
| JobPoolRuns.ScheduledRowSweptIff | webpanel/app/main.py:129-138 | while a scheduled run is under way its row says running, or failed if and only if the panel restarted since |
| JobPoolRuns.RestartFailsALiveRun | webpanel/app/main.py:129-138 | a concrete scheduled run whose row says failed after a restart and success in the end |
| JobPoolRuns.DrainingOnlyShrinks | webpanel/app/jobs.py:437-480 | while draining nothing starts and nothing is accepted; active set and queue only shrink |
| JobPoolRuns.RestartSettlesRows | webpanel/app/main.py:129-138 | after a restart no row is queued or running, those of scheduled runs under way included, and the lock is not the panel's |
| JobPoolRuns.FinishStartsNext | webpanel/app/jobs.py:287-293 | a finishing job hands its slot to the head of the queue unless the pool is still at the limit |
| JobPoolRuns.EveryScheduleEnds | webpanel/app/jobs.py:191-221 | outside draining, with the wake-up condition intact: every schedule of ends, releases and effective retries is bounded and keeps the order, and where it cannot go on everything queued has started and the pool is empty |
| JobPoolRuns.EverythingStarts | webpanel/app/jobs.py:191-221 | and there is such a schedule that gets there |
| JobPoolLaws.DispatchLaw | webpanel/app/jobs.py:116-221 | a submission, the end of a job, the timer or a settings change on the event loop starts the longest prefix of the waiting jobs that the setting admits (5 without one, else clamped to 1 to 10), all of it if the lock is to be had, else none of it and the timer is armed; no row changes but those of jobs that start or end |
| JobPoolLaws.ThreadLaw | webpanel/app/jobs.py:191-240 | a settings change in a worker thread makes at most the head of the queue active, without a coroutine, and leaves no timer running |
| JobPoolLaws.CancelLaw | webpanel/app/jobs.py:410-434 | cancelling a job that runs with a process signals it and changes nothing else; a waiting one leaves the queue, the others keep their order, and its row says cancelled; any other cancellation changes nothing |
| JobPoolLaws.CancelledEndsCancelled | webpanel/app/jobs.py:277-284 | over every run without a restart, a job cancelled while it ran ends cancelled, whatever its exit code, and stays so |
| JobPoolLaws.CancelledNeverStarts | webpanel/app/jobs.py:426-434 | over every run a job cancelled while it waited never starts and its row says cancelled |
| JobPoolLaws.DrainingLaw | webpanel/app/jobs.py:174-189 | while draining a submission leaves its row and the end of a job takes it out, and that is all |
| JobPoolLaws.ProcessLaw | webpanel/app/jobs.py:418-424 | the end of the wait for a signalled process marks the row, whatever it says by then |
| JobPoolLaws.RestartLaw | webpanel/app/main.py:129-138 | a restart leaves an empty pool, a lock the panel does not hold, and failed in every unfinished row; the second signal is one |
| JobPoolLaws.ScheduledLaw | webpanel/app/ansible_layer/headless.py:110-203 | a scheduled run's row from running to its outcome, cancelled if the lock was taken |
| JobPoolLaws.ScriptLaw | webpanel/app/ansible_layer/headless.py:28-39 | a command-line run enters a free critical section, is turned away from any other, and gives it back |
| JobPoolLaws.DeathLaw | webpanel/app/ansible_layer/headless.py:28-39 | whoever dies lets go of the lock, and its row stays as it is |
| JobManager.RunLock.EnterRun | webpanel/app/ansible_layer/headless.py:28-33 | a scheduler or command-line run enters exactly when nobody holds the lock |
| JobManager.RunLock.LeaveRun | webpanel/app/ansible_layer/headless.py:35-39 | leaving frees the lock |
| JobManager.Scheduler.Begin | webpanel/app/ansible_layer/headless.py:110-136 | a scheduled run commits its own running row |
| JobManager.Scheduler.Enter | webpanel/app/ansible_layer/headless.py:140-155 | it gets the lock exactly when nobody has it, else its row ends cancelled |
| JobManager.Scheduler.Exit | webpanel/app/ansible_layer/headless.py:140-149 | it frees the lock and keeps its exit code, or that an error of the operating system came up inside |
| JobManager.Scheduler.WriteRow | webpanel/app/ansible_layer/headless.py:149-203 | the outcome, cancelled after such an error, is written over whatever the row says by then |
| JobManager.Manager.AcquireFlock | webpanel/app/jobs.py:150-163 | succeeds exactly when the panel has the lock or nobody does |
| JobManager.Manager.ReleaseFlock | webpanel/app/jobs.py:165-171 | gives the lock back if the panel had it |
| JobManager.Manager.Dispatch | webpanel/app/jobs.py:205-240 | on the event loop: starts the longest queue prefix the limit admits, all or none of it depending on the lock, else arms the timer; in a worker thread: at most registers the head of the queue, and arms nothing |
| JobManager.Manager.StartJob | webpanel/app/jobs.py:174-189 | takes the job in and dispatches, or refuses while draining and leaves the row |
| JobManager.Manager.Finish | webpanel/app/jobs.py:277-293 | settles the row, keeping a cancellation, frees the slot, dispatches, releases an idle pool's lock |
| JobManager.Manager.CancelJob | webpanel/app/jobs.py:410-434 | signals a running job with a process, or drops a queued one and marks its row, else reports failure and changes nothing; JobPoolLaws.CancelLaw says so of the state itself |
| JobManager.Manager.CancelReturned | webpanel/app/jobs.py:418-424 | after the wait for the process, up to ten seconds later, the row is marked whatever happened meanwhile |
| JobManager.Manager.Retry | webpanel/app/jobs.py:199-203 | the timer disarms itself and dispatches |
| JobManager.Manager.UpdateLimit | webpanel/app/routers/settings.py:87-121 | the new limit is in force for the dispatch that follows, in a worker thread as the handler is not a coroutine |
| JobManager.Manager.BeginDrain | webpanel/app/jobs.py:437-460 | freezes the queue; a second signal restarts at once |
| JobManager.Manager.ForceRestart | webpanel/app/jobs.py:482-486 | memory, timer and lock are gone, unfinished rows become failed at startup |
| JobManager.Manager.Handle | webpanel/app/jobs.py:71-480 | each callback carries out one step of the state machine and keeps its invariant |
| JobManager.Serve | webpanel/app/jobs.py:71-480 | the panel over any sequence of events is a run of the state machine |
| HostState.Table.Write | webpanel/app/jobs.py:331-356 | the guarded write of one host's row |
| HostState.Table.FinalizePanel | webpanel/app/jobs.py:307-356 | settles exactly the job's existing hosts: the newest job's id and time, failed without a recap line or with a failed task, pending for a check with changes, the last status by the line if there is one, the reboot flag by the job; a power job settles none |
| HostState.Table.FinalizeHeadless | webpanel/app/ansible_layer/headless.py:181-201 | the scheduler's loop settles its hosts in the same way |
| HostState.RecordsLaw | webpanel/app/jobs.py:337-356 | what one finished job leaves in the row of a host, value by value, and that an older job leaves it alone |
| HostState.VerdictsAgree | webpanel/app/ansible_layer/results.py:135-165 | failed exactly for a failed or missing recap, pending exactly for a check with changes, and only then with a count |
| HostState.UnreachableIsMissed | webpanel/app/ansible_layer/results.py:14-16 | with a recap line the host is failed if and only if a task failed, however often it was unreachable; a concrete line of an unreachable host that counts as ok |
| HostState.NewestWins | webpanel/app/jobs.py:337-356 | whatever the finishing order, the row ends with what the newest ansible job derives |
| HostState.OrdersConverge | webpanel/app/jobs.py:337-356 | any two finishing orders, power jobs mixed in, agree on job id, config status, pending count and reboot flag |
| HostState.LastStatusConvergesExactly | webpanel/app/jobs.py:344-346 | from any row, `last_status` is independent of the order if and only if the newest job has a recap line for the host, or every other that has one and is not older than the row agrees with it |
| HostState.LastStatusCanDiffer | webpanel/app/jobs.py:344-346 | two concrete runs whose order shows |
| LogStream.JobRuntime.Publish | webpanel/app/jobs.py:43-46 | the line reaches the backlog and every subscriber once; nobody has a gap |
| LogStream.JobRuntime.Subscribe | webpanel/app/jobs.py:48-53 | a late subscriber gets the whole backlog; nobody has a gap |
| LogStream.JobRuntime.Unsubscribe | webpanel/app/jobs.py:55-56 | only that subscriber leaves |
| LogStream.JobRuntime.RunJob | webpanel/app/jobs.py:251-287 | what a job publishes: command, output lines, error, closing line, end marker |
| LogStream.Stream | webpanel/app/routers/jobs.py:165-181 | shows the queued messages up to the end marker and takes no message twice |
| LogStream.StreamsEnd | webpanel/app/routers/jobs.py:165-181 | every stream of a job announces the end once, and has shown the whole log by then if and only if the output does not end in an unterminated line equal to the marker |
| LogStream.StreamCanStopEarly | webpanel/app/routers/jobs.py:165-181 | the stream of such an output stops after the first line |
| LogStream.PublishedLaw | webpanel/app/jobs.py:251-287 | the log is the command, lines that put together are the output, the error of the runner if any, the closing line and the end marker, in their words |
| LogStream.ShownLaw | webpanel/app/routers/jobs.py:165-181 | a stream shows what comes before the first end marker, and announces the end if and only if there is one |
| Ansi.MatchIsExact | webpanel/app/ansi.py:15-19 | the deterministic matcher takes exactly what the regular expression matches: a control or title sequence, else a two-character one |
| Ansi.OscClosesExactly | webpanel/app/ansi.py:17 | a title sequence starts at a position exactly when its body is closed |
| Sgr.State.Apply | webpanel/app/ansi.py:58-92 | the index-driven scan applies the codes that remain once extended colours are taken out with their parameters, in order |
| Sgr.ScanFoldsEffective | webpanel/app/ansi.py:86-92 | scanning with skips equals folding the remaining codes, for any effect of a single code |
| Sgr.FlagsDecided | webpanel/app/ansi.py:62-75 | bold, dim, italic and underline are each what the last of the remaining codes that speaks of it says, and as before if none does |
| Sgr.ColoursDecided | webpanel/app/ansi.py:76-85 | so are the colour and the background |
| Sgr.TagShape | webpanel/app/ansi.py:94-111 | a span tag is opened, ends at its first closing bracket and contains no other |
| AnsiLaws.ExtendedLaw | webpanel/app/ansi.py:86-92 | an extended colour is taken out together with its index or its three components, whatever they are |
| AnsiLaws.ExtendedCutOff | webpanel/app/ansi.py:86-92 | cut off, it takes what there is of it; followed by neither 5 nor 2, nothing but itself |
| AnsiLaws.CodeByCode | webpanel/app/ansi.py:58-92 | any other code takes effect before the codes that follow it |
| AnsiLaws.AttributeLaw | webpanel/app/ansi.py:62-85 | what each attribute code does |
| AnsiLaws.ColourLaw | webpanel/app/ansi.py:24-34 | the colour of each of the codes 30 to 37, 90 to 97, 40 to 47 and 100 to 107 |
| AnsiLaws.OtherwiseKept | webpanel/app/ansi.py:62-92 | colour codes change nothing else, and codes without a meaning nothing at all |
| AnsiLaws.ParameterLaw | webpanel/app/ansi.py:143 | the value of a parameter is the number its digits write, leading zeros aside, and 0 if it is empty |
| AnsiLaws.SequenceLaw | webpanel/app/ansi.py:138-143 | the codes of a colour sequence are the values of the parts between its semicolons |
| AnsiLaws.OtherSequences | webpanel/app/ansi.py:138-142 | exactly the sequences of digits and semicolons that end in m carry codes |
| AnsiLaws.CharacterClasses | webpanel/app/ansi.py:15-19 | the characters that each class of the pattern stands for |
| AnsiLaws.RestyledText | webpanel/app/ansi.py:131-150 | a colour sequence restyles the text after it, by the values of its parameters |
| AnsiLaws.ShownCharacter | webpanel/app/ansi.py:132-151 | a character is shown in the style it stands in |
| AnsiLaws.IndexIsNoCode | webpanel/app/ansi.py:86-92 | a concrete text with an indexed colour, whose index does not turn bold on |
| AnsiLaws.TagLaw | webpanel/app/ansi.py:94-111 | a style has a tag if and only if it shows; the tag sets the colour, bright white for bold text without one, the background and each attribute if and only if the style has them |
| AnsiHtml.AnsiToHtml | webpanel/app/ansi.py:123-156 | the scanning loop produces the markup of the text |
| AnsiHtml.MarkupShowsPainted | webpanel/app/ansi.py:123-156 | read back strictly (balanced spans, none nested, everything escaped) the markup shows exactly the visible characters, each in a span for the style of all colour sequences before it, in none if that style does not show |
| AnsiHtml.PaintedIsStripped | webpanel/app/ansi.py:114-156 | those characters are exactly the stripped text |
| AnsiHtml.StripKeepsExactlyCleanText | webpanel/app/ansi.py:114-120 | stripping keeps a text if and only if no escape sequence occurs in it |
| AnsiHtml.StripTwiceIsOnceIff | webpanel/app/ansi.py:114-120 | stripping is idempotent on a text if and only if no escape character that stays is followed, the removed sequences aside, by the rest of a sequence |
| AnsiHtml.StripTwiceIsOnce | webpanel/app/ansi.py:114-120 | in particular when every escape character belongs to a sequence |
| AnsiHtml.StripCanLeaveASequence | webpanel/app/ansi.py:114-120 | a concrete text whose stripped form still is an escape sequence |
| Schema.ExecSettles | webpanel/app/db.py:104-208 | a statement has nothing left to do once it has run |
| Schema.SettledStays | webpanel/app/db.py:104-208 | and no statement of the same or a later phase gives it something to do again |
| Schema.RunAgain | webpanel/app/db.py:104-208 | running a prefix after another prefix amounts to the longer one |
| Schema.CompletesTheSame | webpanel/app/db.py:104-208 | however often earlier starts were cut off, a complete one ends in the same database |
| Migration.Engine.MigratePreCreate | webpanel/app/db.py:104-127 | issues the two guarded renames |
| Migration.Engine.AddColumns | webpanel/app/db.py:138-146 | adds the missing columns, judged by one look per table |
| Migration.Engine.BackfillFleet | webpanel/app/db.py:150-176 | the virtualization and host-state backfills, in order, up to the first that the database rejects; what they make of the rows is in UpgradeLaws |
| Migration.Engine.BackfillDiscoveries | webpanel/app/db.py:180-200 | the discovery backfill and the drop of the old flag, likewise |
| Migration.Engine.CreateIndexes | webpanel/app/db.py:201-208 | the two indexes, rejected where a column is missing |
| Migration.Engine.InitDb | webpanel/app/db.py:211-228 | runs exactly the guarded statements, phase by phase; fails exactly when a column is missing that no release adds, and then leaves what the phases before the failed transaction did |
| Migration.StartsIff | webpanel/app/db.py:104-228 | a start completes if and only if the hosts it finds have a connection type and the discoveries, under either name, the columns of their index |
| Migration.StartsAlwaysOrNever | webpanel/app/db.py:104-228 | starts that were cut off or failed before do not change that |
| Migration.InterruptedStartsConverge | webpanel/app/db.py:104-228 | whatever starts were cut off before, the next one completes if an uninterrupted one would have, and leaves the same database |
| Migration.TwiceIsOnceIffShaped | webpanel/app/db.py:104-228 | where starts complete, a second one changes nothing if and only if the discoveries table came with a `status` or `status_text` column, or not at all |
| Migration.TwiceCanDiffer | webpanel/app/db.py:104-228 | a concrete table with neither, on which both starts complete and the second one changes it |
| Migration.RowsUpgraded | webpanel/app/db.py:104-208 | in the database where a start ends, if it completes, whatever other columns the discoveries table had under its old or its new name: every row is there with its id; a status or kind it had stands; without a status the old flag decides between ignored and pending; the running/stopped text and all other values are kept; the flag is gone |
| Migration.LegacyRowsUpgraded | webpanel/app/db.py:104-208 | so from the first release: dismissed rows end ignored, others pending, all as new hosts, the running/stopped text in `status_text`; the old table is gone |
| UpgradeLaws.HostStateLaw | webpanel/app/db.py:168-176 | in the database where a start ends every host state is there: updated has become ok, out_of_date pending, unknown failed; any other code and every other value is kept |
| UpgradeLaws.ServersLaw | webpanel/app/db.py:150-166 | and every host: one reached through Proxmox without a guest type is a container, a local one without a kind a Proxmox node if and only if there is a host reached through Proxmox, one reached through Proxmox without a parent goes under the local host of the lowest id if there is one; every other value is kept |
| UpgradeLaws.OtherTablesLaw | webpanel/app/db.py:138-146 | and every row of every other table with its values; a column it was missing has its default |
| UpgradeLaws.SchemaLaw | webpanel/app/db.py:211-228 | after a start all tables and indexes are there, and the version |
| UpgradeLaws.ColumnsLaw | webpanel/app/db.py:22-64 | whatever release it is from, after a start every table has the columns that were added to it since |
| Discovery.Panel.ReconcileName | webpanel/app/discovery.py:225-268 | one host's rename row after looking at a live name, and whether it is new |
| Discovery.Panel.ReconcileNames | webpanel/app/discovery.py:116-177 | the same for all hosts an authority speaks for, counting new rows |
| Discovery.Panel.RunDiscovery | webpanel/app/discovery.py:33-113 | renames, then new, refreshed and resolved guest rows |
| Discovery.Panel.RunNetworkScan | webpanel/app/netscan.py:185-228 | new, refreshed and resolved rows for answering addresses |
| Discovery.Panel.ConfirmDiscovery | webpanel/app/routers/hosts.py:566-593 | registers the guest or renames the host, and closes a pending row only |
| Discovery.Panel.CreateGuest | webpanel/app/routers/hosts.py:467-510 | the registered guest, or nothing for a missing or taken vmid |
| Discovery.Panel.ApplyNameChange | webpanel/app/routers/hosts.py:613-636 | the renamed host, with a suffix when the name is taken |
| Discovery.Panel.CloseDiscovery | webpanel/app/routers/hosts.py:596-611 | records the decision and its time on a pending row only; like every write to a row it moves the last-seen time (webpanel/app/models.py:426) |
| DiscoveryFacts.ReconcileTouchesOwn | webpanel/app/discovery.py:225-268 | every row but the host's own pending rename is kept, in order |
| DiscoveryFacts.ReconcileOutcome | webpanel/app/discovery.py:232-268 | afterwards: none pending if the names agree, the table as before if that transition was ignored, else one pending row from the old to the live name; and when exactly a row was added |
| DiscoveryFacts.SweepTidyIff | webpanel/app/discovery.py:60-103 | a scan keeps one row per vmid or address if and only if it lists no new one twice |
| DiscoveryLaws.ScanLaw | webpanel/app/discovery.py:71-97 | after a scan a listed guest that no managed host stands for has a new row, with the name, type and state it was listed with, the node and the time, if there was none, else the pending one brought up to date |
| DiscoveryLaws.ScanConfirms | webpanel/app/discovery.py:99-105 | a pending row about a guest that a managed host stands for is confirmed by the scan, with the time |
| DiscoveryLaws.SweepLaw | webpanel/app/discovery.py:71-105 | the rows after a sweep, one by one: decided rows stay, pending ones are confirmed, brought up to date or kept as their host is managed, found or neither |
| DiscoveryLaws.NodeLaw | webpanel/app/discovery.py:64 | new guests are put on record with the first node a managed host names |
| DiscoveryLaws.NetScanLaw | webpanel/app/netscan.py:185-228 | after a sweep of the network an address that answered and no managed host has is on record: with a new row, its name and the time if there was none, else the pending one is seen once more |
| DiscoveryLaws.ScanNames | webpanel/app/discovery.py:116-146 | after a scan the table has no pending rename of a host that is called as the last guest listed under its vmid, else the rename to that name, unless it was ignored |
| DiscoveryLaws.ProbeNames | webpanel/app/discovery.py:166-177 | so after a probe, of a host without a vmid that is reached over ssh or locally |
| DiscoveryLaws.RenameSources | webpanel/app/discovery.py:232-268 | a new rename names both names, the time and where it was found: the node, or the connection of the host |
| DiscoveryLaws.RetargetLaw | webpanel/app/discovery.py:252-258 | a pending rename is brought up to date in place |
| DiscoveryRuns.RunTidy | webpanel/app/discovery.py:33-268 | over every run of scans, probes, decisions and host edits: at most one pending rename per host, one row per vmid and address, ids in order |
| DiscoveryRuns.ListedTwiceGivesTwoRows | webpanel/app/discovery.py:71-88 | the concrete guest list that breaks it |
| DiscoveryRuns.DecisionsStick | webpanel/app/discovery.py:89-97 | over every run a confirmed or ignored row stays as it is until its host is deleted |
| DiscoveryRuns.ScanAgain | webpanel/app/discovery.py:33-113 | a repeated scan of the node adds no row and changes only when rows were last seen |
| DiscoveryRuns.NetScanAgain | webpanel/app/netscan.py:185-228 | nor does a repeated sweep of the network |
| DiscoveryRuns.NamesAgain | webpanel/app/discovery.py:116-177 | nor a repeated look at the live names, from the node or from the probe |
| DiscoveryRuns.ScanAccountsForAll | webpanel/app/discovery.py:71-106 | after a scan every listed guest is managed or on record, and no pending row is about a managed one |
| DiscoveryRuns.OneNameAuthority | webpanel/app/discovery.py:149-177 | a host with a vmid is renamed by the node alone, any other by the probe alone |
| DiscoveryRuns.ConfirmRegisters | webpanel/app/routers/hosts.py:577-591 | a confirmed new host with a vmid is managed; without one nothing is registered although the row is confirmed |
| DiscoveryLaws.ConfirmHostLaw | webpanel/app/routers/hosts.py:467-510 | a confirmed guest is registered on the node under its own name or one made of its vmid, with the vmid after it if the name is taken, containers enabled and over Proxmox, virtual machines disabled and over ssh; hosts and rows are otherwise as before but for the closed row |
| DiscoveryLaws.ConfirmRenameLaw | webpanel/app/routers/hosts.py:613-630 | a confirmed rename gives the host the new name, with its vmid or else id after it if another host has that name, and closes the row |
| DiscoveryLaws.CloseLaw | webpanel/app/routers/hosts.py:596-611 | ignoring a pending row closes it and touches nothing else |
| DiscoveryLaws.DecidedStays | webpanel/app/routers/hosts.py:566-611 | deciding a decided or unknown row changes nothing |
| DiscoveryRuns.CreatedGuestAgreesIff | webpanel/app/routers/hosts.py:489-503 | the created host has its live name if and only if that was free or the guest is unnamed; enabled exactly for containers |
| DiscoveryRuns.RenameSticksIffFree | webpanel/app/routers/hosts.py:613-630 | a confirmed rename settles the name if and only if no other host has it; confirming it again changes no host |
| DiscoveryRuns.ConfirmedRenameResurfacesIff | webpanel/app/routers/hosts.py:566-636 | right after a confirmation the rename is announced again exactly when the name was taken and the transition to it from the suffixed name was not ignored before |
| DiscoveryRuns.ConfirmedRenameCanResurface | webpanel/app/routers/hosts.py:566-636 | two concrete hosts for which it is |
| Inventory.HostInventory.StoreHost | webpanel/app/inventory.py:67-97 | one host's rows after its facts, and how many values were replaced |
| Inventory.HostInventory.StoreFacts | webpanel/app/inventory.py:53-98 | every cell follows from the one before and what the run observed of it; the result is the number of replaced values |
| Inventory.FactsLaw | webpanel/app/inventory.py:44-98 | a gathered fact, a list item by item and anything else without white space around it, is in its row afterwards unless it is blank; a replaced value moves to the previous one with the time, a first value does not; all other rows are as before |
| Text.StripIs | webpanel/app/inventory.py:50 | a text is stripped if and only if white space around it was taken away and none is left at its ends |
| Text.SpaceLaw | webpanel/app/inventory.py:50 | the white space is the blank, tabs and line breaks and four control characters |
| Inventory.RowsSummariseHistory | webpanel/app/inventory.py:73-98 | after any runs each row is the last value, the one before and the time of the last change in the stutter-free list of everything observed |
| Inventory.CountsAreChanges | webpanel/app/inventory.py:53-98 | the returned counts add up to the number of changes in that history |
| NetScan.ParseTargets | webpanel/app/netscan.py:35-65 | succeeds exactly when all tokens expand to between 1 and 65536 distinct addresses, and returns those |
| NetScanFacts.TokensLaw | webpanel/app/netscan.py:48 | a specification is cut at its commas and semicolons, and the parts are stripped |
| NetScanFacts.ExpandedOkIff | webpanel/app/netscan.py:51-55 | the tokens expand if and only if each one does, blank ones aside |
| NetScanFacts.TokenOkIff | webpanel/app/netscan.py:68-91 | a token with a slash expands if and only if it is an IPv4 block of at most 65536 addresses, any other one if it is four octets that each stand for a range |
| NetScanFacts.ExpansionIsExact | webpanel/app/netscan.py:68-91 | a token expands, in ascending order, to exactly the addresses it denotes: octet by octet, or the usable ones of a CIDR block |
| NetScanFacts.TargetsAreExact | webpanel/app/netscan.py:35-65 | no repetition, order of first occurrence, exactly the addresses some token denotes, at most 65536 |
| NetScanFacts.RangeRoundTrip | webpanel/app/netscan.py:94-108 | printed ranges, half-open ranges and the star mean what they say, empty or too large ones are refused |
| NetScanFacts.BareAddressRoundTrip | webpanel/app/netscan.py:68-91 | a printed address parses back to itself |
| NetScan.CollectTargets | webpanel/app/netscan.py:160-180 | the targets of all enabled subnets, invalid ones skipped, merged and capped |
| NetScanFacts.ScanTargetsAreExact | webpanel/app/netscan.py:160-180 | no address twice, at most 65536, only denoted ones, and all of them below the cap |
| Lockout.Users.Authenticate | webpanel/app/auth.py:69-93 | refused without a change if and only if the account is unknown, not active or locked; else a right password forgets failures and lock, a wrong one counts, and the fifth locks for ten minutes; other accounts unchanged |
| Lockout.CounterStaysBelow | webpanel/app/auth.py:82-86 | over any attempts the stored count of failures stays below 5 |
| Lockout.InactiveStaysOut | webpanel/app/auth.py:69-72 | an account that is not active stays out and as it is, whatever is tried on it |
| Lockout.FailuresCount | webpanel/app/auth.py:82-87 | on an account without a lock in force, never locked or expired, each wrong password counts, and the fifth locks it for ten minutes from its check |
| Lockout.SuccessStartsOver | webpanel/app/auth.py:88-90 | after a success it takes five wrong passwords again |
| Lockout.LockHolds | webpanel/app/auth.py:73-81 | while the lock is in force every attempt is refused unchecked and nothing changes |
| Lockout.RateBound | webpanel/app/auth.py:69-93 | on a clock that does not run backwards, a stretch without success that spans T has at most 5 * (T / 10 min + 1) checked wrong passwords |
| Lockout.BoundIsReached | webpanel/app/auth.py:69-93 | and that many are possible: attempts on such a clock, none successful, that reach the bound for every whole number of lockouts |

## Left out

- Subprocesses, asyncio, signals, sockets, SSE, sessions, CSRF and HTML pages: only "job finished with this exit code and recap", "lock attempt succeeded or not", "this address answers" are inputs.
- SQLAlchemy and SQLite: transactions are atomic and serial; `LIMIT 1` picks the lowest id; foreign keys act as declared.
- Crashes: a restarted panel is assumed to have taken its child jobs with it, while scheduled runs go on and may die at any point; exceptions inside the end-of-job processing, housekeeping and log files are assumed not to happen; two threads inside the dispatcher at once are left out.
- JobManager.Manager.Finish: the row's status only; history events, logs, the fact and container refresh of the same callback are left out there (host state and discoveries are modelled in their own modules).
- LogStream.JobRuntime.RunJob: the exit code and status in the closing line are one given text.
- HostState.OrdersConverge: says nothing of `last_status` (its exact condition is in LastStatusConvergesExactly) and of the time of the check, which is the newest job's finish time.
- OverlayFacts.OverlayAgrees: requires an acyclic graph; below the top level of a cyclic one a group node hides what its own path already shows.
- ForestBuilder.BuildHostForest: node ids are lists of segments, which ForestShape joins to texts; display fields (labels, search text, live, power and config state) are left out; lower-casing and stripping cover ASCII.
- HostLinks.Hosts.AddHost: addresses, credentials, the closing of the discovery and the audit log are left out, as is the node's container list, from which the picks and their names come; a missing and an empty `virt_kind` are the same.
- GroupStore.Store.UpdateGroup: descriptions, the audit log and form parsing are left out.
- Overlay.ResolveConfig: the stored `__secrets__` map and JSON decoding are left out; one global row per plugin is assumed, which the unique key does not enforce for NULL references.
- AnsiHtml.AnsiToHtml: `html.escape` is its five replacements character by character; Python's limit on the length of a number is not modelled.
- Migration.Engine.InitDb: column types and constraints, file permissions and indexes made by `create_all` are left out; statements run whole or not at all, and a transaction that fails is taken back whole (what a driver commits earlier is a cut-off start); apart from the hosts' connection type and the indexed columns of discoveries, tables have the columns of their first release.
- Discovery.Panel.RunDiscovery: the counts of seen and pending rows and the host's parent link (HostLinks has it) are left out; generated names are not re-checked against other hosts, which the code leaves to the database.
- Discovery.Panel.ReconcileNames: the cached hostname in the host state is left out; each host's rows are read when it is visited, the code reads all before the loop, which is the same for distinct hosts.
- Inventory.HostInventory.StoreFacts: the time a row was last refreshed is left out.
- NetScan.ParseTargets: the library's parsing of a CIDR token is a parameter; digits are ASCII.
- Lockout.Users.Authenticate: password verification is given, rehashing and concurrent requests on one account are left out.
- The rest of the panel (power actions, Proxmox and Docker command parsing, scheduling, credentials, console, housekeeping) and the Ansible roles are left out; they are short or are library calls.
