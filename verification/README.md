# Verified models of sealos cluster-lifecycle logic

This project models the decision-making core of sealos in Dafny and proves what
it promises. `dafny verify dfyconfig.toml` checks everything; there is nothing to
build. Each module is one part of the program:

- **Revert** (`Revert`, `RevertApply`, `RevertSuccess`, `RevertTheorems`,
  `RevertRun`, `Comparison`): `sealos sync revert`. A world of hosts' file entries
  and cluster objects is compared with a bundle, drifted targets are planned, and
  applying the plan rewrites them, locally or over SSH. Remote paths are compared
  in the tree they are staged into, before the revert and after it.
- **Objects** (`OwnedFields`, `OwnedPaths`, `DesiredObjects`, `RepeatedKeys`,
  `KeyedLists`): the comparison of cluster objects is modelled, not assumed:
  normalization, several fragments merged by priority, owned fields, lists matched
  by merge key. `OwnedPaths` looks values up by path and decides comparison and
  merging by what is found.
- **Staging** (`Staging`): copying a remote host's tracked paths into a local tree
  through the text printed by an inspection script.
- **Paths** (`Paths`, `SiblingPaths`): Go's lexical path functions and the two
  resolvers that keep tracked paths below a root.
- **Shell text** (`Shell`, `Csv`, `Refresh`, `RefreshTheorems`): the printed commands
  against an independent reader, which follows the token recognition and quoting
  rules of IEEE Std 1003.1-2017, Shell Command Language, sections 2.2.1 to 2.2.3
  and 2.3; and the refresh command through shell, flag parser and target
  resolution back to the bundle it was printed for.
- **Freshness** (`RenderInputs`, `TargetResolution`, `DirectoryDigest`, `Freshness`,
  `FreshnessTheorems`): which release a render resolves to, what it records and
  what the later recheck reports.
- **Bootstrap**, **ClusterClient**, **EnvCache**, **Stream**: concurrent code. The
  goroutines' steps are interleaved by a schedule, a list of choices, and every
  theorem is about all schedules.
- **Scale**, **RunHosts** (`ClusterTypes`): cluster membership.
- **HealthProof**, **Reload**, **Retry**, **Decode**: self-contained loops.
- `Witnesses`, `RevertWitnesses`: situations that meet the assumptions of the main
  theorems, a collision-free hash among them, and inputs for what was found.
- `GoStrings`, `Sorting`: the pieces of Go's library the others rely on.

Code that works step by step is modelled by methods and classes, each proved
equal to a specification function; the theorems are about those functions.
What lies outside the program (file contents, kubectl, SSH, digests, YAML) is a
parameter. Where a theorem needs hashing to be collision-free, it says so
(`DirectoryDigest.GoodHash`).

## What was found

Where the code does not do what one would expect, the model keeps the code and a
lemma names the exact condition.

- A reverted object compares clean if and only if its compiled form repeats no
  merge key and no probe in it holds a zero default
  (`RevertTheorems.ObjectsConverge`). Fragments are normalized one by one before
  they are merged, so a patch that sets a probe's delay to zero, without repeating
  the probe's handler, is drift for ever (`RevertWitnesses.PatchedProbe`).
- A list that repeats a key never matches itself, but does match a live list that
  holds the key once (`RevertWitnesses.RepeatedKeyMatchesOnce`).
- A patch of a Secret that names no type resets the type to `Opaque`
  (`DesiredObjects.PatchResetsType`).
- An upload of `X` destroys a file called `X.tmp` on the remote host; if that is
  tracked too, the revert leaves it missing (`RevertWitnesses.ScratchVictim`).
- A staged link keeps its target only if the target has no white space at its
  ends and no newline; a file mode of zero is staged as the default mode. Such
  bundle entries stay drift on remote hosts (`RevertTheorems.UnshownNeverClean`).
- A report that lists a stage twice yields no health proof, even if it is
  acceptable (`Witnesses.StageTwiceNoProof`).
- Bundle paths: having the root as a prefix is not enough for a root made only of
  `..` (`Paths.BundlePrefixNotEnough`).
- A recorded path that ends in white space makes a bundle stale at once; a
  package directory given as a symbolic link is digested like an empty directory,
  so changes in it are never noticed.
- After an add, deleting the same lists is refused if the master list has the
  bare address of the first master.
- `sealos run` can put one host into a master group and a node group, when it is
  given once with and once without the default port.
- SSH overrides match by suffix, so a group can lend its settings to a host whose
  text its addresses merely end with.
- A shim configuration changed between start-up and the watcher's first read is
  not adopted while the file stays like that.
- A package source with a comma, a quote or a newline does not survive the refresh
  command, as its flag reads its value as a CSV record.
- Decoding a file without a document of the kind yields nil, which the callers'
  type assertions do not survive.

## Model

| member | source | states |
|---|---|---|
| Revert.DesiredPathExact | cmd/sealos/cmd/sync.go:3434-3454 | a host's own binding decides its desired file, else that of its bare address, else the shared path |
| Revert.PlanOnlyDrifted | cmd/sealos/cmd/sync.go:2717-2878 | every plan, in any scope and selection, holds only compared entries that drifted and can be reverted, in local scope only dirty ones |
| Revert.PlanAllComplete | cmd/sealos/cmd/sync.go:2846-2878 | without selection the full-scope plan is everything that drifted and can be reverted |
| Revert.PlanAllInOrder | cmd/sealos/cmd/sync.go:2846-2878 | that plan, in order: exactly the drifted objects and the drifted paths that can be reverted; it always succeeds |
| Revert.PlanLocalExact | cmd/sealos/cmd/sync.go:2846-2866 | over drifted input the unselected local-scope plan succeeds if and only if some object is dirty or some path is dirty and revertable; it is then exactly the dirty objects and the dirty revertable paths, in order |
| Revert.PlanNothing | cmd/sealos/cmd/sync.go:2728-2744 | without drift every plan is empty |
| Revert.PlanHostPathExact | cmd/sealos/cmd/sync.go:2746-2815 | a host-path selection succeeds if and only if exactly one drifted entry matches and it is revertable and in scope; the plan is that entry |
| Revert.PlanObjectExact | cmd/sealos/cmd/sync.go:2817-2844 | the same for an object selection |
| RevertApply.WriteFrame | cmd/sealos/cmd/sync.go:3123-3370 | one write, also a failing one, touches the destination, an upload's scratch name and missing parents only |
| RevertApply.WriteWrites | cmd/sealos/cmd/sync.go:3178-3227 | a successful write leaves the desired entry in place (without special mode bits if local), special files excepted |
| RevertApply.LocalRemoteAgree | cmd/sealos/cmd/sync.go:3229-3308 | the remote way of writing a file is refused exactly where the local one is, and for links to directories and an occupied scratch name; its effect differs only by the scratch file, special mode bits and special files |
| RevertSuccess.WriteSucceeds | cmd/sealos/cmd/sync.go:3178-3370 | exactly when a write succeeds, from the state before it, for files and links, in place or over SSH: every ancestor in the store is a directory, the destination is none, remotely also no link to one, and an upload finds its scratch name usable |
| RevertSuccess.WriteLeaves | cmd/sealos/cmd/sync.go:3178-3370 | what a write that succeeds leaves at every place, from the state before it |
| RevertSuccess.StepSucceeds | cmd/sealos/cmd/sync.go:3123-3167 | a target is reverted without error if and only if its destination and bundle entry are usable and the write succeeds |
| RevertSuccess.RunStepwise | cmd/sealos/cmd/sync.go:3051-3075 | a run succeeds if and only if each target succeeds in the state the earlier ones leave |
| RevertSuccess.ClearRunSucceeds | cmd/sealos/cmd/sync.go:3051-3075 | for targets that keep clear of one another this is decided in the state before the run |
| RevertSuccess.ApplySucceeds | cmd/sealos/cmd/sync.go:3051-3121 | the whole apply succeeds if and only if remote access is there where needed, the run succeeds and no object is refused |
| RevertSuccess.LinkPutRight | cmd/sealos/cmd/sync.go:3205-3227 | a drifted local link below directories is always replaced by the desired one |
| RevertTheorems.TargetWritten | cmd/sealos/cmd/sync.go:3051-3121 | in a run that succeeds every copied target ends up holding its bundle entry, unless a later upload has it as scratch name |
| RevertTheorems.PlaceAfter | cmd/sealos/cmd/sync.go:3051-3121 | what a run that succeeds leaves at a tracked place: nothing if an upload took it as scratch name and no write followed, else its bundle entry, or what stood there if it was clean |
| RevertTheorems.RevertConverges | cmd/sealos/cmd/sync.go:3051-3167 | after a full revert, comparing again with remote hosts staged anew finds a copied path clean if and only if no upload removed it after its last write and, on a remote host, it was clean or staging shows its desired entry unchanged |
| RevertTheorems.UnshownNeverClean | cmd/sealos/cmd/sync_multinode.go:995-998 | a desired link target with outer white space or a newline is drift on a remote host whatever is written |
| RevertTheorems.ObjectsConverge | cmd/sealos/cmd/sync.go:3077-3120 | after a full revert a drifted object compares clean if and only if its compiled form repeats no merge key and has no probe with a zero default; clean objects are unchanged |
| RevertTheorems.ObjectsSet | cmd/sealos/cmd/sync.go:3077-3120 | applying objects sets the targeted identities and no others |
| RevertTheorems.RevertFrame | cmd/sealos/cmd/sync.go:3051-3075 | outside targets and scratch names a run, also one that fails, only adds missing parents: everywhere for copied targets, else wherever generated repair keeps still |
| RevertTheorems.ScratchLost | pkg/ssh/scp.go:178-229 | an upload that succeeds removes whatever file stood under the scratch name |
| RevertTheorems.SecondPlan | cmd/sealos/cmd/sync.go:2717-2878 | planning again after the revert names a copied path if and only if it did not settle |
| RevertTheorems.SecondPlanObject | cmd/sealos/cmd/sync.go:2717-2878 | and an object if and only if it had drifted and cannot settle |
| Comparison.StagedLive | cmd/sealos/cmd/sync_multinode.go:668-690 | a remote comparison sees the staged copy of the host's entry, whatever the temporary root |
| Comparison.FileCompared | pkg/distribution/compare/compare.go:641-704 | a tracked regular file, local or staged: clean if and only if a file with the desired content and permission bits is live (remotely, a mode of zero shows as the default mode); missing or a link is drift; anything else is an error |
| Comparison.LinkCompared | pkg/distribution/compare/compare.go:641-704 | a tracked link: clean if and only if a link is live whose target, remotely as staging shows it, is the desired one; missing or a file is drift |
| Comparison.ComparedComplete | cmd/sealos/cmd/sync_multinode.go:664-712 | the comparison fails if and only if some single one does, and otherwise reports every tracked path of every host it applies to |
| Comparison.ComparedFromTracked | cmd/sealos/cmd/sync_multinode.go:664-712 | every status the comparison reports is the verdict on a tracked path that applies to its host |
| Comparison.CompareEachHost | cmd/sealos/cmd/sync_multinode.go:664-712 | the loops over hosts and paths, stopping at the first error |
| RevertRun.PlanTargets | cmd/sealos/cmd/sync.go:2717-2878 | the planning loops compute the specified plan |
| RevertRun.KeepWhile | cmd/sealos/cmd/sync.go:2746-2765 | the selection loop stops exactly when some match cannot be reverted, else collects all matches in order |
| RevertRun.Fleet.CopyRegularFile | cmd/sealos/cmd/sync.go:3178-3203 | in-place copy equals its specification, errors included |
| RevertRun.Fleet.CopySymbolicLink | cmd/sealos/cmd/sync.go:3205-3227 | the same for links |
| RevertRun.Fleet.UploadFile | pkg/ssh/scp.go:178-229 | scratch file, then rename |
| RevertRun.Fleet.RevertHostPath | cmd/sealos/cmd/sync.go:3123-3167 | dispatch by path class and by local or remote host |
| RevertRun.Fleet.ApplyTargets | cmd/sealos/cmd/sync.go:3051-3121 | targets are applied in order and the first error stops the run with the effects so far |
| OwnedFields.MatchesSelf | pkg/distribution/compare/compare.go:1892-1996 | an object matches itself if and only if no keyed list repeats a key |
| OwnedPaths.MatchesExact | pkg/distribution/compare/compare.go:1892-1996 | desired matches live if and only if, path by path, every scalar in desired is the same in live, every object is an object, plain lists agree in length and keyed lists in their keys; paths go by field, position and merge key, without the comparison |
| OwnedPaths.ScalarDiffers | pkg/distribution/compare/compare.go:1926-1931 | one scalar that live does not hold at its path makes the object drift |
| OwnedFields.MergeSound | pkg/distribution/compare/compare.go:2124-2158 | a merged value matches the overlay laid on last, field by field and key by key |
| OwnedFields.MergeListSound | pkg/distribution/compare/compare.go:2160-2210 | the same for lists merged by key |
| OwnedPaths.MergeExact | pkg/distribution/compare/compare.go:2124-2210 | what a merged value says at a path: the overlay if it speaks of the path, else the base |
| OwnedPaths.CompiledScalar | pkg/distribution/compare/compare.go:404-455 | the scalar at a path of the compiled object is that of the last fragment that speaks of the path |
| OwnedPaths.LayersOrdered | pkg/distribution/compare/compare.go:414-422 | the fragments are laid by owner, then by path, each normalized, none lost |
| OwnedPaths.ProbesExact | pkg/distribution/compare/compare.go:2270-2320 | normalizing probes removes exactly the zero defaults at the ends of paths into probes and keeps every other scalar |
| OwnedFields.ScanDuplicate | pkg/distribution/compare/compare.go:1955-1970 | indexing a live list finds a repeated key if and only if one is repeated before any item without a key |
| OwnedFields.RepeatedLiveKey | pkg/distribution/compare/compare.go:1949-1970 | such a live list matches nothing that could be desired |
| OwnedFields.KeyedListMatches | pkg/distribution/compare/compare.go:1949-1996 | a desired list of keyed items, repeated keys or not, matches exactly the lists of distinct keys that hold a matching item for each |
| OwnedFields.RepeatedKeyShared | pkg/distribution/compare/compare.go:1972-1995 | so desired items of one key must all match one live item |
| RepeatedKeys.MergeRepeats | pkg/distribution/compare/compare.go:2124-2210 | a merge leaves a repeated key exactly where the base had it and the overlay does not replace the list |
| RepeatedKeys.CompiledRepeats | pkg/distribution/compare/compare.go:404-455 | with later fragments that repeat none, the compiled object repeats a key if and only if a list of the lowest fragment does and every later fragment spares it |
| DesiredObjects.NormalizeNormal | pkg/distribution/compare/compare.go:2231-2346 | normalization leaves an object without status, server metadata, plain Secret data and zero defaults in probes |
| DesiredObjects.NormalizeFixed | pkg/distribution/compare/compare.go:2231-2346 | and changes nothing in such an object |
| DesiredObjects.NormalizeKeeps | pkg/distribution/compare/compare.go:2231-2240 | a top-level field other than status, metadata, a probe zero or a Secret's data stays, up to the probes in it |
| DesiredObjects.PrunedKeeps | pkg/distribution/compare/compare.go:2239-2267 | metadata loses exactly the server-written fields and annotations loses exactly the tools' keys |
| DesiredObjects.SecretKeeps | pkg/distribution/compare/compare.go:2322-2346 | a Secret gets type Opaque if it names none, its plain texts encoded under data, and keeps the rest of its data |
| DesiredObjects.CompileOrderFree | pkg/distribution/compare/compare.go:414-422 | the order in which fragments are tracked does not matter when owner and path tell them apart |
| DesiredObjects.CompiledCleanExact | pkg/distribution/compare/compare.go:404-482 | a compiled object that is live compares clean if and only if it repeats no merge key and no probe in it holds a zero default |
| DesiredObjects.ProbeZeroNeverClean | pkg/distribution/compare/compare.go:468-482 | with such a zero it never compares clean, whatever is live |
| DesiredObjects.SingleFragmentClean | pkg/distribution/compare/compare.go:404-482 | for one fragment only repeated keys matter |
| DesiredObjects.CompiledIsClean | pkg/distribution/compare/compare.go:404-455 | an object compiled from proper fragments, sorted by priority and path, satisfies the highest one, and is clean once live unless merging made a zero default |
| DesiredObjects.PatchResetsType | pkg/distribution/compare/compare.go:2322-2325 | a Secret patch without type resets the type |
| Staging.InspectReport | cmd/sealos/cmd/sync_multinode.go:942-1001 | reading back the printed report of any entry gives its kind, mode and trimmed target |
| Staging.SeenTargetExact | cmd/sealos/cmd/sync_multinode.go:995-998 | a link target comes back unchanged if and only if it has no white space at its ends and no newline |
| Staging.StagingFaithful | cmd/sealos/cmd/sync_multinode.go:835-914 | staging prefix-free paths succeeds and the tree then copies every one of them; missing stays missing |
| Staging.StagingTwice | cmd/sealos/cmd/sync_multinode.go:863-934 | staging a path again changes no staged path |
| Staging.StagedComparison | cmd/sealos/cmd/sync_multinode.go:863-914 | comparing the staged copy equals comparing the host's entry if and only if the link target and the mode survived |
| Staging.StageTrackedPath | cmd/sealos/cmd/sync_multinode.go:863-914 | staging one path in place equals its specification |
| Staging.StageHostRoot | cmd/sealos/cmd/sync_multinode.go:835-861 | the staging loop equals its specification and stops at the first error |
| Paths.CleanIdempotent | cmd/sealos/cmd/sync.go:3456-3481 | cleaning twice is cleaning once, the basis of both resolvers |
| Paths.ResolveHostPathExact | cmd/sealos/cmd/sync.go:3456-3481 | every absolute tracked path resolves to root plus cleaned path; the escape branch cannot be reached |
| Paths.ResolveHostPathInjective | cmd/sealos/cmd/sync.go:3456-3481 | two tracked paths resolve alike if and only if they clean alike |
| Paths.ResolveBundlePathExact | cmd/sealos/cmd/sync.go:3416-3432 | a bundle path is accepted if and only if it is non-blank, relative and lands below the cleaned root |
| Paths.BundlePrefixExact | cmd/sealos/cmd/sync.go:3416-3432 | for a rooted root, or one ending in a name, that is having the root's components as a prefix |
| Paths.BundlePrefixNotEnough | cmd/sealos/cmd/sync.go:3416-3432 | for the root `..` the prefix alone does not suffice |
| Shell.CommandRoundTrip | cmd/sealos/cmd/sync_multinode.go:1003-1013 | a shell reading the printed command gets exactly the arguments, whatever they contain |
| Shell.CommandInjective | cmd/sealos/cmd/sync_multinode.go:1003-1013 | different argument lists print differently |
| Shell.NestedRoundTrip | cmd/sealos/cmd/sync_multinode.go:946-962 | a path quoted into a script quoted into a command comes back intact after two shells |
| Shell.ShellCommand | cmd/sealos/cmd/sync_multinode.go:1007-1013 | the append loop prints that command |
| DirectoryDigest.StreamInjective | pkg/distribution/hydrate/digest.go:36-126 | the record encoding hashed for a directory tells all walks apart |
| DirectoryDigest.DigestExact | pkg/distribution/hydrate/digest.go:36-99 | equal digests if and only if the walks saw the same entries |
| DirectoryDigest.LinkedDirUnseen | pkg/distribution/hydrate/digest.go:41-57 | a root that is a link to a directory digests like an empty directory |
| RenderInputs.RenderDeterministic | cmd/sealos/cmd/sync.go:3681-3712 | the recorded provenance does not depend on the order a map yields its keys in |
| RenderInputs.ResolvePackageSources | cmd/sealos/cmd/sync.go:3776-3824 | the loop binds each pair once or reports the first error |
| TargetResolution.ResolveExact | cmd/sealos/cmd/sync.go:135-208 | a target resolves if and only if exactly one way of naming it is used, completely, and it leads to a BOM that parses; reached through a channel file or a release source the BOM must be the channel's in name and revision and a pinned digest must equal the hash of the bytes read (a release source must pin one), and the target carries that hash |
| TargetResolution.ChannelFileExact | pkg/distribution/bom/channel.go:718-795 | a channel file alone: it and the BOM it names can be read and parsed, name and revision agree, and a pin that is not blank equals the hash of the bytes read |
| TargetResolution.BindExact | cmd/sealos/cmd/sync.go:3776-3824 | package sources bind if and only if each value names a component of the BOM and a package directory, and no component is bound twice; each component then has its directory and nothing else changes |
| RenderInputs.RecordPackageSources | cmd/sealos/cmd/sync.go:3684-3712 | for every map order the sources are recorded sorted by component |
| RenderInputs.NormalizeSources | pkg/distribution/hydrate/bundle.go:124-171 | normalizing recorded sources keeps each one, in order, only trimmed |
| Freshness.RenderInputStatus | cmd/sealos/cmd/sync_multinode.go:192-365 | the accumulated changes are exactly the specified ones |
| FreshnessTheorems.LookupFresh | cmd/sealos/cmd/sync_multinode.go:207-237 | a recorded release source is fresh if and only if the lookup finds the same BOM bytes; the revision test never decides |
| FreshnessTheorems.FreshnessExact | cmd/sealos/cmd/sync_multinode.go:192-365 | a rendered bundle is matched if and only if every recorded input still has its recorded value at its recorded path, from any working directory |
| FreshnessTheorems.RecheckMatched | cmd/sealos/cmd/sync.go:3627-3714 | an immediate recheck is matched when no recorded path ends in white space |
| FreshnessTheorems.CleanedBlank | cmd/sealos/cmd/sync.go:3664-3680 | cleaning can produce a path ending in any name, a blank at its end included |
| FreshnessTheorems.BlankEndGoesStale | pkg/distribution/hydrate/bundle.go:124-136 | with nothing at the trimmed BOM path the bundle is not matched at once |
| FreshnessTheorems.LinkedSourceUnseen | cmd/sealos/cmd/sync_multinode.go:313-357 | changing the contents of a linked package directory leaves the bundle matched |
| Refresh.RefreshCommand | cmd/sealos/cmd/sync_multinode.go:367-400 | the arguments are appended and printed as specified |
| Refresh.RefreshRoundTrip | cmd/sealos/cmd/sync_multinode.go:367-400 | shell and flag parser read the printed command back as exactly the recorded values if and only if every printed pair is one plain CSV field |
| Csv.FieldsExact | cmd/sealos/cmd/sync.go:888-889 | a flag value is read back as itself if and only if it has no comma, quote or newline and does not end in a carriage return |
| Refresh.RefreshSelectsOne | cmd/sealos/cmd/sync.go:135-160 | for any provenance exactly one target selector is set, with the recorded repo and patch revision |
| Refresh.PairCutsBack | cmd/sealos/cmd/sync.go:3792-3800 | a printed pair is cut back into itself if and only if the component has no `=` |
| Refresh.CommaSplits | cmd/sealos/cmd/sync.go:888-889 | a comma makes the flag hold several values, none of them the printed one |
| SiblingPaths.SiblingSame | pkg/distribution/bom/channel.go:718-726 | a BOM named relative to its channel file is found alike from the relative and the absolute path of that file |
| RefreshTheorems.TargetReproduced | cmd/sealos/cmd/sync.go:135-208 | the target the refresh command selects leaves the same record, for each of the three kinds |
| RefreshTheorems.RefreshReproduces | cmd/sealos/cmd/sync_multinode.go:367-400 | running the printed command in an unchanged world renders a bundle with the same revision and provenance |
| Bootstrap.Registry.RegisterApplier | pkg/bootstrap/bootstrap.go:84-96 | appends to the list of the phase; an unknown phase changes nothing |
| Bootstrap.RegisteredExact | pkg/bootstrap/bootstrap.go:84-96 | after any series of registrations each phase holds what was registered for it, in order |
| Bootstrap.OrdersExact | pkg/bootstrap/bootstrap.go:63-104 | position by position, Apply goes through preflights, initializers, postflights and Delete through postflights, initializers, preflights |
| Bootstrap.ApplyKeepsInv | pkg/bootstrap/bootstrap.go:63-82 | the state invariant holds after every schedule |
| Bootstrap.ApplyBarrier | pkg/bootstrap/bootstrap.go:63-128 | an applier begins anywhere only after every earlier one is over, without failure, on every host |
| Bootstrap.ApplyOutcome | pkg/bootstrap/bootstrap.go:63-128 | when Apply returns, all hosts have attempted the same appliers, through the first that failed anywhere, whatever the schedule; an error names a failure of that applier |
| Bootstrap.ApplyProgress | pkg/bootstrap/bootstrap.go:119-128 | until Apply has returned every worker that is not over can move, and the caller when all are |
| Bootstrap.PhaseBarrier | pkg/bootstrap/bootstrap.go:63-82 | in Apply no initializer begins anywhere before every preflight is over without failure everywhere, no postflight before every initializer is |
| Bootstrap.PhaseUndone | pkg/bootstrap/bootstrap.go:98-117 | in Delete a host's preflights are undone only after its initializers, and those only after its postflights, were undone or did not apply |
| Bootstrap.DeletePrefix | pkg/bootstrap/bootstrap.go:98-117 | at every moment what a host has begun to undo is a prefix of its applicable postflights, initializers, preflights |
| Bootstrap.DeleteIndependent | pkg/bootstrap/bootstrap.go:98-117 | a host stands where its own moves alone would have brought it; failures elsewhere never cut it short |
| Bootstrap.DeleteOutcome | pkg/bootstrap/bootstrap.go:98-128 | each host runs its sequence through its own first failure; an error is returned if and only if some host failed |
| ClusterTypes.CanonIdempotent | pkg/utils/iputils/iputils_v2.go:76-94 | writing an address as ip:port twice changes nothing |
| Scale.Cluster.Add | pkg/apply/scale.go:112-204 | the whole new host list, or an error and no change |
| Scale.Cluster.Delete | pkg/apply/scale.go:210-279 | the remaining host list, or an error and no change |
| Scale.AddExact | pkg/apply/scale.go:112-204 | an add succeeds if and only if all addresses are valid, none is both master and node, there is a master and no address is joined yet; it then appends the two groups |
| Scale.DeleteSucceeds | pkg/apply/scale.go:210-254 | a delete succeeds if and only if all addresses are valid, none is both, the first master is spared and every address is joined |
| Scale.BuildGroup | pkg/apply/scale.go:163-189 | the loop builds the new group or stops at an address already joined |
| Scale.ReturnFiltered | pkg/apply/scale.go:281-289 | the filtering loop |
| Scale.ExcludeNeverDecides | pkg/apply/scale.go:168-176 | the exclude filter drops nothing that the duplicate check lets through |
| Scale.DeleteExact | pkg/apply/scale.go:256-278 | a delete removes from each group exactly the addresses named under that group's role, in order, and leaves no empty group |
| Scale.DeleteKeepsMaster0 | pkg/apply/scale.go:228-233 | a delete keeps the first master when no group has both roles |
| Scale.AddThenDelete | pkg/apply/scale.go:112-279 | deleting what was added restores the host groups if and only if the master list lacks the bare address of the first master; else it is refused |
| RunHosts.ClusterArgs.SetHostWithIpsPort | pkg/apply/run.go:147-172 | for every map order the groups are placed as that order prescribes |
| RunHosts.CallExactlyOnce | pkg/apply/run.go:147-172 | every requested address not in the cluster is in the new groups exactly once, and nothing else is |
| RunHosts.OnePort | pkg/apply/run.go:150-171 | every new group has one port and only wanted addresses |
| RunHosts.MasterGroupInFront | pkg/apply/run.go:132-172 | the non-empty group of the first master's port is in front, also after the nodes were added |
| RunHosts.FirstMasterFirst | pkg/apply/run.go:132-172 | a first master that is not joined yet is the first address of that group |
| RunHosts.TwoCallsExactlyOnce | pkg/apply/run.go:132-143 | after both calls every address is in exactly one group if and only if no node, written out, is also a master |
| RunHosts.SameHostTwice | pkg/apply/utils.go:46-64 | the check on the raw lists does not ensure that |
| ClusterClient.Settings.OverSSHConfig | pkg/ssh/clusterclient.go:33-54 | overrides field by field in place |
| ClusterClient.ComputeConfig | pkg/ssh/clusterclient.go:64-71 | overriding once per matching address equals overriding once per matching group |
| ClusterClient.ConfigByField | pkg/ssh/clusterclient.go:33-71 | each field has the last non-empty value of the matching groups, else the global one; the key name is never overridden |
| ClusterClient.SuffixMatches | pkg/ssh/clusterclient.go:67-68 | an address that ends with the host's text matches it |
| ClusterClient.OptionFields | pkg/ssh/ssh.go:179-204 | the options made from a configuration, field by field: sudo exactly for a user other than root, defaults where it is blank |
| ClusterClient.ClientRight | pkg/ssh/clusterclient.go:56-98 | in every interleaving a call ends with the directly computed options and a client built from them |
| ClusterClient.CacheKeyed | pkg/ssh/clusterclient.go:79-98 | each cached client was built from the object it is filed under |
| ClusterClient.RaceMakesTwo | pkg/ssh/clusterclient.go:56-77 | two misses for one host can install two option objects, with equal contents |
| ClusterClient.ObjectsFixed | pkg/ssh/clusterclient.go:73-77 | option objects never change once made |
| EnvCache.HostEnvExact | pkg/env/env.go:95-119 | a host sees its own last value for a key, else the global one, and nothing prefixed SEALOS_SYS |
| EnvCache.LinesExact | pkg/env/env.go:95-105 | the last group that lists a host gives its lines |
| EnvCache.ParseLines | pkg/utils/maps/maps.go:39-50 | the parsing loop |
| EnvCache.ExcludeKeysWithPrefix | pkg/env/env.go:121-132 | for every map order: exactly the keys without the prefix, and the excluded ones |
| EnvCache.GetHostEnv | pkg/env/env.go:95-119 | the loops compute the specified environment |
| EnvCache.Processor.GetHostEnvInCache | pkg/env/env.go:75-92 | an entry is made once and then kept |
| EnvCache.Processor.Getenv | pkg/env/env.go:53-60 | the map handed out is new and shares nothing with the cache |
| EnvCache.ComputedOnce | pkg/env/env.go:75-92 | in every interleaving a host's environment is computed at most once |
| EnvCache.ReadersRight | pkg/env/env.go:75-92 | in every interleaving each reader gets the direct computation |
| EnvCache.EntriesFixed | pkg/env/env.go:75-92 | a cache entry never changes |
| EnvCache.SomeoneMoves | pkg/env/env.go:75-92 | the mutex never blocks everyone |
| Stream.HandlePipe | pkg/ssh/sshcmd.go:183-207 | the loop cuts the stream as specified |
| Stream.ChunksExact | pkg/ssh/sshcmd.go:183-207 | chunks then pending line are the bytes read; a chunk ends at its last byte and nowhere before |
| Stream.ChunksOnly | pkg/ssh/sshcmd.go:183-207 | there is no other way to cut a stream like that |
| Stream.NewlineOrPrompt | pkg/ssh/sshcmd.go:179-205 | a chunk ends in a newline or is a prompt, never both |
| Stream.PromptExact | pkg/ssh/sshcmd.go:179-181 | a text is a prompt if and only if it is the fixed beginning, some user, and a colon with a blank |
| Stream.Writer.Write | pkg/ssh/sshcmd.go:164-177 | a prompt is answered and kept out of the buffer, anything else is buffered |
| Stream.MergedAtEnd | pkg/ssh/sshcmd.go:78-80 | with pipes sharing the writer, in every interleaving, the buffer merges their chunks in order without prompts, and answers equal prompts |
| HealthProof.PassExact | cmd/sealos/cmd/sync_health_proof.go:322-417 | a proof passes if and only if the last entry of every contract stage passed (changing things where required), no listed stage failed and the rest is in order |
| HealthProof.RevertCheckOnlyStricter | cmd/sealos/cmd/sync_health_proof.go:594-602 | turning the revert check on never makes a failing report pass |
| HealthProof.ThresholdsExact | cmd/sealos/cmd/sync_health_proof.go:289-302 | the thresholds name all signals in order and require as many |
| HealthProof.SignalsRequired | cmd/sealos/cmd/sync_health_proof.go:304-316 | every signal is required and named |
| HealthProof.EvaluationAgrees | pkg/distribution/bom/channel.go:562-630 | the release side computes from required, named signals and their thresholds that they all passed, exactly when they did |
| HealthProof.ProofExact | cmd/sealos/cmd/sync_health_proof.go:204-235 | a proof is generated if and only if no two stages with a status share a trimmed name (and the document's other fields are fine); it records a pass if and only if the report is acceptable |
| HealthProof.BuildHealthProof | cmd/sealos/cmd/sync_health_proof.go:204-235 | collecting, evaluating and validating give the specified proof or none |
| HealthProof.ValidateRequired | pkg/distribution/bom/channel.go:533-543 | the loop refuses a blank or repeated required name |
| HealthProof.CollectContractSignals | cmd/sealos/cmd/sync_health_proof.go:559-626 | the stage map and the contract loop give the specified signals |
| HealthProof.CollectSignals | cmd/sealos/cmd/sync_health_proof.go:322-417 | the whole signal list |
| HealthProof.CheckSignals | cmd/sealos/cmd/sync_health_proof.go:642-652 | true if and only if there are signals and all passed |
| HealthProof.CollectThresholds | cmd/sealos/cmd/sync_health_proof.go:289-302 | the threshold loop |
| HealthProof.EvaluateProof | pkg/distribution/bom/channel.go:562-630 | the counting and lookup loops compute the specified verdict |
| Reload.Watcher.Watch | cmd/image-cri-shim/cmd/root.go:120-192 | the select loop, tick by tick |
| Reload.UpdateExact | cmd/image-cri-shim/cmd/root.go:147-178 | a tick updates the shim if and only if its content parses, preprocesses and differs from the last accepted, and takes the interval it configures if positive, else the default; any other tick changes nothing |
| Reload.IntervalPositive | cmd/image-cri-shim/cmd/root.go:127-188 | the polling interval stays positive |
| Reload.SettledOnce | cmd/image-cri-shim/cmd/root.go:147-188 | a good file that stops changing is accepted at the next tick with at most one update |
| Reload.AdoptedExact | cmd/image-cri-shim/cmd/root.go:120-188 | whatever the watcher's first read was, the shim runs the settled file if and only if it was loaded at start-up, or the first read found something else, or an update came before |
| Reload.SettledAdopted | cmd/image-cri-shim/cmd/root.go:120-188 | if the file did not change before the watch began, the shim then runs it |
| Reload.ChangeBeforeWatchMissed | cmd/image-cri-shim/cmd/root.go:131-141 | a change before the watch began is not adopted while the file stays |
| Retry.Retry | pkg/ssh/connect.go:84-103 | calls, error and sleeps of the loop |
| Retry.NilExact | pkg/ssh/connect.go:84-103 | nil if and only if no step is allowed or an attempt within the steps succeeds after retriable errors only |
| Retry.PauseExact | pkg/ssh/connect.go:90-93 | no pause overflows when the longest fits |
| Retry.SleptExact | pkg/ssh/connect.go:88-94 | after k+1 calls the loop has slept interval times the geometric sum |
| Decode.CrdForBytes | pkg/clusterfile/decode.go:59-130 | the loop with its index map returns the merged list, nil without a document, or an error |
| Decode.IndexedNext | pkg/clusterfile/decode.go:96-125 | the index map stays a bijection between names and positions |
| Decode.MergedExact | pkg/clusterfile/decode.go:67-130 | every name once, in order of first appearance, with the content of its last |
| Decode.TakenExact | pkg/clusterfile/decode.go:76-95 | reading fails if and only if some document breaks it; otherwise exactly the wanted documents are taken, in order |
| Decode.FirstSeenPrefix | pkg/clusterfile/decode.go:96-125 | later documents never move an earlier name |
| Decode.OthersIgnored | pkg/clusterfile/decode.go:76-91 | documents of other kinds, empty ones and null change nothing |
| Witnesses.RenderFromFile | cmd/sealos/cmd/sync.go:3627-3714 | rendering a local BOM file alone always records it and meets the assumptions of the freshness theorems |
| Witnesses.ReportCanPass | cmd/sealos/cmd/sync_health_proof.go:559-626 | the contract can be met: such a report yields a passing proof, revert check included |
| Witnesses.StageTwiceNoProof | pkg/distribution/bom/channel.go:533-543 | an acceptable report with a stage listed twice yields none |
| RevertWitnesses.MissingFileReverts | cmd/sealos/cmd/sync.go:3051-3167 | a missing local file is planned and restored without error, meeting the assumptions of convergence |
| RevertWitnesses.ScratchVictim | pkg/ssh/scp.go:178-229 | a revert that succeeds leaves a tracked file under an upload's scratch name missing |
| RevertWitnesses.PatchedProbe | pkg/distribution/compare/compare.go:2270-2305 | a zero patched into a probe repeats no key and never compares clean |
| RevertWitnesses.RepeatedKeyMatchesOnce | pkg/distribution/compare/compare.go:1949-1996 | a list with a repeated key does not match itself but matches the list with the key once |

## Left out

- RevertApply.WriteFrame: path components that are symbolic links, and hence two names for one file, are not modelled; a scratch name that is a link counts as an error.
- RevertTheorems.RevertConverges: generated control-plane repair is left open as an arbitrary step that keeps the tracked places, so generated paths are not claimed to converge; the tracked paths of a remote host must not lie under one another.
- RevertSuccess.ClearRunSucceeds: for targets that overlap (one below another, or under another's scratch name) only the stepwise form is stated.
- OwnedPaths.MergeExact: for values whose keyed lists repeat no key and name items by scalars; a list under a repeated key is the subject of RepeatedKeys.
- Comparison.CompareEachHost: the hosts and the verdict on generated paths are parameters; the one bootstrap input path that is suppressed on several nodes is left out.
- RevertTheorems.ObjectsConverge: kubectl apply is setting the object to its compiled desired value; admission and server-side defaults are not part of this model.
- OwnedFields.MatchesSelf: a merge key that is itself a list or map is compared as a value where the code compares its printed text, and a fractional number used as a key is not rounded; comparison and merging are loops in the source and recursion here.
- RepeatedKeys.CompiledRepeats: the later fragments must repeat no key themselves and identify list items by scalars.
- DesiredObjects.CompiledCleanExact: finding fragments in the bundle's files, the encoding of Secret texts and the ownership recorded for each field are left out.
- Staging.InspectReport: carriage returns rewritten by the SSH client's output joining are left out.
- Paths: host names that alias each other (local address detection) are a parameter, not computed.
- Shell.CommandRoundTrip: the reader refuses operators, expansions, globs and comments outside quotes instead of interpreting them; the printed commands contain none.
- FreshnessTheorems.FreshnessExact: paths are read lexically, without symbolic links on the way; a local repo's revision, YAML decoding and release-channel discovery are parameters; the report is about provenance and says nothing of the render's other failures.
- Freshness.RenderInputStatus: error texts are replaced by fixed words.
- Refresh.RefreshRoundTrip: shorthand flags such as `-f` are refused by the modelled parser.
- RefreshTheorems.RefreshReproduces: the channel file must be named by a proper last component, components have no equals sign, and no recorded path ends in white space.
- Bootstrap.ApplyOutcome: appliers are arbitrary outcomes per host; their contents and the context they share are not modelled.
- Scale.AddThenDelete: IPv6 addresses, for which the two printing functions used differ; address parsing and the architecture probe are parameters.
- RunHosts.SetHostWithIpsPort: the architecture probe and image handling of `runArgs` are left out.
- ClusterClient.ClientRight: the cluster description is fixed while clients are made; reading key files when a client is built is a success or a failure.
- EnvCache.ReadersRight: rendering of shell text and templates with an environment is left out.
- Stream.MergedAtEnd: failing writes to stdin and the optional copy to standard output are left out; bytes are characters.
- HealthProof.PassExact: signal messages, sources and evidence references are left out.
- HealthProof.ProofExact: the verdict on the proof's name, line, revision and collection time is a parameter.
- Reload.UpdateExact: the synchronisation from a config map, the cache statistics reporter and the ticker object are left out; a tick stands for whatever the file holds then.
- Retry.SleptExact: sleeping is recorded, not performed.
- Decode.CrdForBytes: splitting the file into documents and decoding them is a parameter.
- Preflight decision tables, output structures, command-line registration, OCI image handling and certificates would only add field copying and finite case splits.
