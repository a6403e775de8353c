# DINS node installer: identity negotiation and bootstrap decisions

This project is a Dafny model of the first-boot installer of the DINS fleet
(`installer/entry_installer.py`). When a Raspberry-Pi-class node boots, the installer:

1. decides whether the node's hostname already follows the fleet convention (`dins-…`);
2. if it does not, picks a name against the peers that answer a ping scan.
   It renames the node to that name, reports that a reboot is required, and stops;
3. otherwise it upgrades the OS and installs Docker. The node then either
   initialises the swarm (it is `dins-master`) or joins it on port 2377 at the
   coordinator address that `getent` reports. Finally the installer pulls the
   installer image unless the local image listing mentions `main-installer:local`,
   and creates the global `main_installer` service.

Every subprocess is an input to the model. A ping outcome is a predicate
`reachable: string -> bool`. `getent`, `docker swarm join-token` and
`docker images` are output strings. A run of `main` is a trace: the names
pinged, the steps taken with the commands that carry a decision, and how the
run ended (reboot required, bootstrapped, or failed).

Modules, following the source's functions:

- `Text`: the Python string operations the installer uses: `isspace`, `startswith`,
  substring `in`, `strip()` and `split()`.
- `Decimal`: `f"{i:02d}"` and its inverse.
- `Prober`: `scan_network_for`.
- `Resolver`: `recommend_name`, its composition with the default scan, and the corrected scan.
- `Commands`: `run_command`'s `sudo` prefix.
- `Swarm`: `init_or_join_swarm`.
- `Workload`: `pull_main_installer` and `run_main_installer`.
- `Bootstrap`: `main`.
- `Scenarios`: concrete fleet situations.

The model follows what the code does. In particular:

- Conformance is only the `startswith("dins-")` test, not the full naming pattern.
- Worker names are `dins-nodeNN`.
- The join token comes from `docker swarm join-token` run on the joining node
  itself, not from the coordinator. Its stripped output is used as the token.
- The image check is a substring test on the listing, not an exact name:tag match
  (`Workload.SubstringSuppressesPull`).
- When no name is free, `main` compares the hostname with `None`, finds them
  different, and calls `set_hostname(None)`. That call raises a `TypeError`
  before any command runs. The model reports this as `Failed(NoNameAvailable)`
  with no steps.
- The code never checks for an existing `main_installer` service. On a second launch
  Docker rejects the `service create` because the name is taken, and `run_command`
  ignores that failure.

## Model

| member | source | states |
|---|---|---|
| Text.Strip | installer/entry_installer.py:26 | the stripped output is empty exactly when the output is all whitespace; otherwise it neither starts nor ends with whitespace |
| Text.StripUnchanged | installer/entry_installer.py:26 | an output with non-whitespace ends comes back from `strip()` unchanged |
| Text.StripIdempotent | installer/entry_installer.py:26 | stripping an already stripped output changes nothing |
| Text.Fields | installer/entry_installer.py:75 | `split()` yields non-empty fields free of whitespace, and none at all exactly when the text is all whitespace |
| Text.FirstFieldOfStripped | installer/entry_installer.py:75 | `strip().split()[0]` is the first whitespace-delimited field of the raw output |
| Text.FirstFieldUnique | installer/entry_installer.py:75 | a string has at most one first field, so the characterisation above pins the address down |
| Text.ContainsIgnoresStrip | installer/entry_installer.py:81-82 | stripping the listing can neither hide nor reveal a needle whose ends are not whitespace |
| Decimal.Pad2 | installer/entry_installer.py:14 | the formatted ordinal has at least two characters, and exactly two digits for 0..99 |
| Decimal.Pad2RoundTrip | installer/entry_installer.py:14 | reading the zero-padded text back as an integer yields the ordinal, negative ordinals included |
| Decimal.Pad2Injective | installer/entry_installer.py:14 | distinct ordinals never format to the same text |
| Prober.NodeNameHasPrefix | installer/entry_installer.py:14 | every synthesised name starts with the prefix and has at least two characters after it |
| Prober.NodeNameInjective | installer/entry_installer.py:14 | under one prefix, distinct ordinals give distinct host names |
| Prober.ScanNetworkFor | installer/entry_installer.py:11-20 | the scan returns exactly the names `prefix + pad2(i)` for `start <= i <= end`, end included, that answered |
| Prober.ProbedIsReachableCandidates | installer/entry_installer.py:11-20 | the scanned set is a subset of the candidates, and a name is in it iff it is a candidate that answered |
| Prober.ProbeOrderDistinct | installer/entry_installer.py:13-14 | walking the ordinals in ascending order, the scan never pings the same name twice |
| Prober.ProbeOrderCoversCandidates | installer/entry_installer.py:13-14 | the names the scan pings are exactly the candidate names of the range |
| Resolver.FirstFreeOrdinal | installer/entry_installer.py:37-41 | the ordinal found is the smallest in range whose worker name is free; none is found iff every worker name in range is taken |
| Resolver.RecommendName | installer/entry_installer.py:28-41 | every recommendation starts with `dins-`, and a recommendation that changes the name is never one of the peers |
| Resolver.ConformantKept | installer/entry_installer.py:29-30 | a hostname starting with `dins-` is returned unchanged whatever the peers are |
| Resolver.MasterWhenAbsent | installer/entry_installer.py:34-35 | with `dins-master` absent from the peers, a non-conformant host gets `dins-master` whichever workers are present |
| Resolver.FirstFreeWorker | installer/entry_installer.py:37-40 | with `dins-master` present, a non-conformant host gets `dins-node` plus the smallest free ordinal in 1..99 |
| Resolver.NoneIffFull | installer/entry_installer.py:34-41 | resolution gives `None` exactly when the host is non-conformant and `dins-master` and all of `dins-node01`..`dins-node99` are peers |
| Resolver.RecommendIdempotent | installer/entry_installer.py:29-40 | resolving a recommendation again, against any peers, returns it unchanged |
| Resolver.MasterNeverScanned | installer/entry_installer.py:11-20 | a scan under the `dins-node` prefix never contains `dins-master`, for any range and any reachability |
| Resolver.NonConformantAlwaysMaster | installer/entry_installer.py:33-35 | as composed with the default scan, every non-conformant hostname resolves to `dins-master` |
| Resolver.FullScanAvoidsReachable | installer/entry_installer.py:33-40 | if the scan also pings `dins-master`, a newly chosen name never belongs to a node that answered |
| Commands.RunCommand | installer/entry_installer.py:22-24 | with `sudo` the argument vector is `sudo` followed by the command; without it the command is unchanged |
| Swarm.MasterAddress | installer/entry_installer.py:75 | there is no address (Python's `IndexError`) exactly when the `getent` output is all whitespace; an address is non-empty and free of whitespace |
| Swarm.MasterAddressIsFirstField | installer/entry_installer.py:75 | the address is the first whitespace-separated field of the `getent` output and the only string that qualifies |
| Swarm.AddressBeforeSpace | installer/entry_installer.py:75 | an output that starts with an address followed by whitespace yields that address, whatever follows |
| Swarm.InitOrJoinSwarm | installer/entry_installer.py:68-77 | `swarm init` is the whole phase iff the host is `dins-master`; a member looks up, fetches a token and joins `address:2377` with the stripped token, and stops after the lookup iff its output is blank |
| Workload.NeedsPullIffTagAbsent | installer/entry_installer.py:81-82 | a pull is issued iff `main-installer:local` does not occur in the raw listing |
| Workload.SubstringSuppressesPull | installer/entry_installer.py:82 | a listing with `…/main-installer:localdev` also suppresses the pull, because the test is a substring test |
| Workload.PullMainInstaller | installer/entry_installer.py:79-86 | the phase issues the image listing and then exactly one pull when the local tag is absent from the listing, and nothing else |
| Bootstrap.Proceed | installer/entry_installer.py:107-111 | once the hostname is final, the run pings nothing and cannot end in a reboot or a naming failure; it starts with upgrade then install, and a bootstrapped run takes all five steps in order: its swarm step runs `swarm init` iff the host is `dins-master` and is the phase `init_or_join_swarm` issues for the host's outputs, its pull step pulls iff the local tag is absent from the listing, and its last step is the fixed `docker service create` |
| Bootstrap.Main | installer/entry_installer.py:98-111 | a rename run has the rename as its only step; other runs never rename; a bootstrapped run takes upgrade, install, swarm, pull and launch in that order |
| Bootstrap.RenamesIffChanged | installer/entry_installer.py:99-105 | `main` renames and stops iff the recommendation is a name other than the hostname, and the single step is `sudo hostnamectl set-hostname <name>` |
| Bootstrap.RenamesIffNonConformant | installer/entry_installer.py:98-105 | as composed, a run renames iff the hostname is non-conformant, always to `dins-master`, pings only then, and never fails for want of a name |
| Bootstrap.ConformantProceeds | installer/entry_installer.py:107-111 | a conformant host pings nothing and upgrades then installs; it fails with no join issued iff it is a member with blank `getent` output, and otherwise bootstraps |
| Bootstrap.RenameThenProceed | installer/entry_installer.py:99-105 | after a rename, the next run under the new name neither renames nor pings and starts the pipeline |
| Scenarios.FreshNodeOnEmptyNetwork | installer/entry_installer.py:98-105 | `raspberrypi` with no peers renames to `dins-master` and stops |
| Scenarios.SixthWorker | installer/entry_installer.py:37-40 | with `dins-master` and workers 1 to 5 present, the recommendation is `dins-node06` |
| Scenarios.MemberWithoutCoordinator | installer/entry_installer.py:73-77 | a worker whose `getent` output is empty stops after the lookup: no token request, no join, no pull, no service |
| Scenarios.MemberJoinPhase | installer/entry_installer.py:73-77 | a worker whose lookup prints `<ip> dins-master` looks up, fetches a token, and joins `<ip>:2377` with that token |
| Scenarios.MemberJoinsCoordinator | installer/entry_installer.py:73-77 | a worker whose lookup prints an address joins that address on port 2377 and goes on to bootstrap |
| Scenarios.LiveCoordinatorOverlooked | installer/entry_installer.py:33-35 | with every name answering, the installer still hands out `dins-master`, while the corrected scan finds every name taken |

## Findings

| source | as written | input that shows it | evidently intended | confidence | as-written member | corrected member |
|---|---|---|---|---|---|---|
| installer/entry_installer.py:33-35 | `recommend_name` looks for `dins-master` in `scan_network_for()`, which only pings `dins-node01`..`dins-node99` | hostname `raspberrypi` while every name, `dins-master` included, answers pings: the recommendation is `dins-master` | the coordinator check should ping `dins-master` itself, so a second node does not claim the coordinator name | high (not executed) | Resolver.NonConformantAlwaysMaster | Resolver.FullScanAvoidsReachable |

`Scenarios.LiveCoordinatorOverlooked` shows both halves on the same input.
`Bootstrap.Main` keeps the scan as written, because it models what the installer does.
`Resolver.RecommendWithFullScan` is the corrected resolver. It resolves against
`Resolver.DiscoverPeers`, which adds `dins-master` to the scanned peers when that name answers.

## Left out

- The subprocess effects are not modelled: `ping`, `hostnamectl`, `apt-get`, `curl`/`gpg`,
  `lsb_release`, `getent` and `docker`. Their observable results are inputs.
- `run_command` ignores exit codes, so the model does too. Exceptions other than
  the two above are not modelled, for example a missing executable.
- `socket.gethostname()` is the `hostname` input.
- `upgrade_os` and `install_docker` are fixed command sequences with no decisions.
  They appear as the opaque steps `UpgradeOs` and `InstallDocker`.
- `run_main_installer` always issues the same `docker service create` command
  (`Workload.ServiceCreateCommand`). It never checks for an existing service.
- Ping timeouts and timing are not modelled. Within one pass a name answers
  according to `reachable`, so the same name always gives the same answer.
- Nodes that boot at the same time can race for `dins-master` or a worker
  ordinal. The code has no lock or protocol for this, so it is not modelled.
- Log messages (`print`) are not modelled.
- `setup/setup_manager.py` is not part of this model. It covers directory
  creation, environment-flag logging and a non-terminating keep-alive loop.
