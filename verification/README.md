# Sydom: a verified model of its policy core

Sydom keeps authorization policy in a control plane (business tables in a relational store), projects it to casbin rules,
and replicates every committed version to sidecars that answer requests from memory. This project models the parts that
carry its guarantees and proves them:

- **Versioned writes** (`Tables`, `Projection`, `Rules`, `VersionedWrite`, `PolicyManager`): every write is one transaction that
  reprojects the tables, compares rules by key, and commits either the tables alone or a new version with one outbox row and one audit row.
- **Policy as code** (`Iac`, `PlanKinds`, `Snapshot`, `DataRows`, `ImportTarget`, `Import`, `ImportPlan`, `ImportOutcome`, `ImportFrame`,
  `ImportEffect`, `Convergence`, `Replan`, `Export`, `ImportExamples`): a plan computed from a document and a source-aware snapshot, carried
  out phase by phase; what an import leaves stored of every declared and undeclared entity, what it never touches, exactly when it fails, and
  when planning again finds nothing to do.
- **Replication** (`Relay`, `Hub`, `Wire`, `SyncClient`, `Engine`, `Cache`, `Replication`, `ClientMoves`, `EndToEnd`): an at-least-once relay, a bounded
  fan-out that drops, and a client that applies, ignores or pulls. `Replication` is a state machine over all of it, in which the bus
  loses, repeats and reorders, calls fail and connections break at any point.
- **Row filters** (`Conditions`, `DataTable`, `Filter`, `RowAccess`, `RenderSql`, `SqlText`, `SqlRoundTrip`, `SydomSql`): stored condition trees are
  selected, merged, resolved, printed as parameterised SQL, renumbered, and put under a caller's own condition. `RowAccess` says in terms of the
  stored policies alone which rows a user may see. A lexer and a
  recursive-descent parser with SQL's precedence give the printed text an independent meaning.
- **Small algorithms** (`Graph`, `Enforcement`, `Sorting`, `SafeKey`, `Text`): the cycle search, the casbin matcher and what it
  means in the tables, sorted comparison, and template keys.

Objects whose methods update fields are classes (`AppStore`, `Kernel`, `Client`, `BoundedCache`, `Table`, `Fanout`, `Sender`, `Outbox`,
`Builder`, `Tx`); their contracts tie the new state to functions, and the properties are proved about those functions and about runs.
Clocks, the network, and failing database or casbin calls are parameters: `fault`, `calls`, `env`, or steps of the state machine.

## Reading guide

Rules are six-column rows. Roles and permissions are identified by their code, which the schema makes unique within an application;
data policies keep their generated id. Tables are finite maps and sets, so unique and foreign keys are conditions of the statements.
A condition inside a document or a table is a canonical JSON text; in the row filter it is a typed tree.

Where the code and its own comments differ, the model follows the code:

- The comparison key of a rule joins columns with the unit separator, which a comment says cannot occur in a value. Nothing enforces
  that, so the exactness of the comparison is stated as a condition (`Rules.DiffExactIffNoClash`), and a permission update that goes
  unnoticed is shown (`VersionedWrite.SeparatorClash`).
- A subscription reads the current version before it registers its stream, although a comment says it registers first. The state machine
  keeps that order (`Joining`, then `Receiving`); gap detection and the heartbeat cover what passes by in between.
- A comment says a pulled snapshot's version agrees with its rules. They are read by separate statements, so another commit can come
  between them. `Config.consistent` chooses; the torn case is shown (`Replication.TornReadsShow`) and proved to heal.
- A comment bounds a template key by 30 bytes; the number added after the cut makes it up to 37 (`SafeKey.DeriveAll`), which still fits.

Properties that are false as one would first state them are given with the exact condition, and with an input that fails:

- import convergence: `Replan.ImportConverges`; `ImportExamples.RepeatedCodeRecurs` and `ImportExamples.RoleSubjectRecurs`;
- importing one's own export: `Export.OwnImportKeepsRules`; `ImportExamples.OwnExportAllows`;
- increments of the data table: `DataTable.ChangeKeepsMatchIff`; `DataTable.ControlPlaneRemovalIsLost`, for the removals that are really sent;
- reading printed SQL back: `SqlRoundTrip.PrintedReadsBack`; `SqlRoundTrip.HiddenKeywordFails`;
- the matcher answering as the tables do: `Enforcement.AgreesIffHarmless`; `Enforcement.RoleNamedUserIsAllowed`;
- rules equal to the projection: `VersionedWrite.CommitProjects`; `VersionedWrite.SeparatorClash`;
- a declared role's data scopes being stored: `ImportEffect.DeclaredScopesAreStored`; `ImportEffect.BarCollides`, for two scopes with one
  comparison key;
- a committed change of a data policy reaching the sidecars: `DataTable.FittingNamesBucketIff` and the contract of
  `PolicyManager.AppStore.UpsertDataPolicy`, an update that moves a policy to another resource being the failing case;
- no variable left in a resolved condition: `RowAccess.VariablesRemain`, attributes that look like variables being the failing case.

## Model

| member | source | states |
|---|---|---|
| Rules.RuleKeyInjective | internal/controlplane/projection/diff.go:10-20 | without the separator in any column, two rules with one key are the same rule |
| Rules.RuleKeyMeans | internal/controlplane/projection/diff.go:10-20 | the key is the type and the six columns with character 31 between them |
| Rules.Diff | internal/controlplane/projection/diff.go:22-42 | adds hold one desired rule for every key the current rules lack and nothing else; removes the other way round |
| Rules.DiffExactIffNoClash | internal/controlplane/projection/diff.go:21-42 | adds and removes are the exact set differences if and only if no changed rule shares its key with another rule |
| Rules.CleanRulesNeverClash | internal/controlplane/projection/diff.go:10-20 | rule sets without separators never clash |
| Projection.ProjectApp | internal/controlplane/projection/project.go:11-84 | the three row loops yield exactly the grant, binding and inheritance rules of the tables |
| Projection.Search.Dfs | internal/controlplane/projection/project.go:115-131 | a failed search leaves the visited roles closed under edges and free of the child; a successful one is a real path |
| Projection.CheckNoCycle | internal/controlplane/projection/project.go:89-136 | an edge is accepted exactly when its parent does not reach its child, which is exactly when the graph stays acyclic |
| Graph.AcyclicAfterAdding | internal/controlplane/projection/project.go:89-91 | adding an edge keeps an acyclic graph acyclic if and only if its end does not reach its start |
| PolicyManager.AncestorsBounded | internal/controlplane/mgmt/role_graph.go:183-199 | in every reachable state a walk up the inheritance visits at most as many roles as there are, so the recursive query ends |
| Enforcement.LinkedIffHolds | internal/sidecar/kernel/model.go:13-20 | the grouping rules link a user to exactly the roles the user holds, if and only if bindings under names that are also role codes lead only to held roles |
| Enforcement.DecideMeansTablesAllow | internal/sidecar/kernel/model.go:16-20 | under that condition the matcher on projected rules answers what the tables say: a held role allows, none denies |
| Enforcement.AgreesIffHarmless | internal/sidecar/kernel/model.go:16-20 | with given roles, inheritance and bindings, matcher and tables agree on every request whatever is granted, if and only if that condition holds |
| Enforcement.NewDenyGrantDenies | internal/controlplane/store/store.go:130-137 | once a role is newly granted a permission with effect deny, the tables deny its resource and action to every user who holds the role |
| Enforcement.RoleNamedUserIsAllowed | internal/sidecar/kernel/model.go:19-20 | a user id equal to a role code is taken for the role: an unbound user is allowed what the role is granted |
| VersionedWrite.OrderDoesNotMatter | internal/controlplane/store/store.go:35-53 | for an exact delta, adding then removing equals removing then adding, and adds and removes are disjoint |
| VersionedWrite.CommitProjects | internal/controlplane/policy/manager.go:87-107 | after a committed write the rules equal the projection of the tables if and only if no changed rule clashes |
| VersionedWrite.SeparatorClash | internal/controlplane/projection/diff.go:10-42 | an update that moves a separator from a permission's resource to its action changes its rule but not the key, so the write commits the new tables under the old rules |
| VersionedWrite.CommitKeepsRecord | internal/controlplane/policy/manager.go:65-133 | a commit keeps versions contiguous, one outbox and one audit row each, and every delta exact from version to version, data policies included |
| VersionedWrite.CommitDataKeepsRecord | internal/controlplane/policy/manager.go:478-512 | so does a data-policy commit |
| VersionedWrite.CleanTablesNeverClash | internal/controlplane/projection/diff.go:10-20 | writes between tables without separators never clash, so rules always equal the projection |
| PolicyManager.ApplyDiff | internal/controlplane/store/store.go:35-53 | deletes then inserts; it breaks the unique constraint exactly when an added rule is already there after the removes |
| PolicyManager.AppStore.RunVersionedWrite | internal/controlplane/policy/manager.go:65-133 | fails with everything unchanged, or commits: tables alone when nothing differs, else a new version with rules, outbox and audit in step; history only grows, and without a clash the rules of every version stay the projection of the tables committed with it |
| PolicyManager.AppStore.RunVersionedWriteData | internal/controlplane/policy/manager.go:478-512 | always a new version, never another rule; a failure changes nothing |
| PolicyManager.AppStore.AddRoleInheritance | internal/controlplane/policy/manager.go:391-401 | adds that one edge if and only if the graph stays acyclic and both roles exist; otherwise nothing changes |
| PolicyManager.AppStore.RemoveRoleInheritance | internal/controlplane/policy/manager.go:404-411 | commits exactly the tables without that one edge and keeps every invariant |
| PolicyManager.AppStore.GrantPermission | internal/controlplane/policy/manager.go:171-178 | succeeds exactly when role and permission exist or the grant does; a new grant is stored with the given effect, an existing one keeps its own, every other table stays; after a new deny grant the tables deny the permission to every holder of the role |
| PolicyManager.AppStore.RevokePermission | internal/controlplane/policy/manager.go:182-189 | commits exactly the tables without that one grant |
| PolicyManager.AppStore.CreateRole | internal/controlplane/policy/manager.go:192-202 | succeeds exactly for a free code; the new manual role has the given name, no description and nothing else changes |
| PolicyManager.AppStore.CreateBusinessRole | internal/controlplane/policy/manager.go:215-237 | succeeds exactly for a free code and existing permissions; the role and an allow grant of each listed permission land together, or nothing does |
| PolicyManager.AppStore.DeleteRole | internal/controlplane/policy/manager.go:368-375 | exactly the role, its grants, its inheritance on both sides and its bindings go; foreign keys and acyclicity stay |
| PolicyManager.AppStore.UpsertPermission | internal/controlplane/policy/manager.go:378-388 | stores resource, action, type and name as given; a stored permission keeps description and source, a new one is manual |
| PolicyManager.AppStore.BindUserRole | internal/controlplane/policy/manager.go:414-421 | succeeds exactly when the role exists; adds that one binding, after which the user holds the role and everything it inherits |
| PolicyManager.AppStore.UnbindUserRole | internal/controlplane/policy/manager.go:424-431 | commits exactly the tables without that one binding |
| PolicyManager.AppStore.ReportPermissions | internal/controlplane/policy/manager.go:139-166 | a reported code whose row is free or auto ends as its last report with source auto; manual and iac rows and every other table stay; the counts add up to the batch, and are zero on failure |
| PolicyManager.ReportingTwiceIsOnce | internal/controlplane/store/store.go:283-303 | reporting the same batch again changes nothing and counts the same |
| PolicyManager.AppStore.UpsertDataPolicy | internal/controlplane/policy/manager.go:434-455 | one new version whose single change is an add for a new id and an update for a stored one, with the row as stored; the change names its bucket, and leads every sidecar table of the old policies to one of the new, if and only if the id is new or the resource unchanged |
| PolicyManager.AppStore.DeleteDataPolicy | internal/controlplane/policy/manager.go:458-468 | succeeds exactly for a stored id; the row goes, and the single change is a removal that carries only the id |
| PolicyManager.PlanAndApply | internal/controlplane/policy/policy_as_code.go:147-158 | under the lock: succeeds if and only if role keys are unique, the fresh plan has no conflict, and no ungoverned role blocks a delete |
| PolicyManager.AppStore.ImportAppPolicy | internal/controlplane/policy/policy_as_code.go:113-178 | a dry run or a failure changes nothing at all; otherwise a committed write like every other, successful exactly under the stated conditions, with the tables reconciled with the document, no binding lost, and changes that add new ids, update stored ones in place and remove by id |
| Iac.Validate | internal/controlplane/iac/parse.go:45-114 | accepts exactly the documents with complete fields, unique identities, known effects and declared references |
| Iac.ValidMeans | internal/controlplane/iac/parse.go:45-114 | what an accepted document looks like, field by field |
| Iac.Diff | internal/controlplane/iac/diff.go:65-328 | the plan holds one item for every identity whose source and fields call for one and no other item; permissions, roles, then data policies, new entities after stored ones, each in the order of identities |
| PlanKinds.PlanListsNeeds | internal/controlplane/iac/diff.go:65-375 | a plan lists an item of a kind exactly when document and snapshot call for it: creation of what is absent, adoption of what is manual, update of an iac entity in which some field differs, deletion of what is undeclared, and the three kinds of conflict |
| Iac.PlanIsDetermined | internal/controlplane/iac/diff.go:89-239 | such a plan is determined by what is decided: reordering document or snapshot does not change it |
| Sorting.SortedCopiesEqual | internal/controlplane/iac/diff.go:433-450 | comparing sorted copies is comparing as multisets |
| Snapshot.SplitDataPolicies | internal/controlplane/policy/policy_as_code.go:525-535 | role scopes by role code and the rest, each in id order, nothing lost |
| Snapshot.SnapshotCurrent | internal/controlplane/policy/policy_as_code.go:182-235 | fails exactly when two expressible roles derive one key; otherwise reads permissions, roles, grants, scopes and bindings as stored, permissions in the order of their codes |
| Import.ResetRolePermissions | internal/controlplane/policy/policy_as_code.go:482-521 | afterwards the role holds exactly the listed permissions, all with effect allow |
| Import.DeletePlannedRoles | internal/controlplane/policy/policy_as_code.go:300-319 | deletes exactly the planned roles with their scopes and records a removal for each row |
| Import.WritePlannedRoles | internal/controlplane/policy/policy_as_code.go:350-414 | every planned role ends with the declared fields, grants and scopes; other roles and rows stay |
| Import.WritePlannedPolicies | internal/controlplane/policy/policy_as_code.go:416-460 | every planned policy ends as one row with the declared fields, created or replaced in place |
| Import.DeletePlannedPermissions | internal/controlplane/policy/policy_as_code.go:462-470 | deletes all planned permissions, or fails because one is still granted |
| ImportPlan.ApplyImportPlan | internal/controlplane/policy/policy_as_code.go:240-473 | carrying out the fresh plan succeeds if and only if no ungoverned role holds a permission to be deleted; the tables are then reconciled and the changes explain every data row |
| ImportOutcome.ImportKeepsSound | internal/controlplane/policy/policy_as_code.go:286-473 | the phase order keeps every foreign key, every column check and acyclic inheritance |
| ImportFrame.ImportLeavesOthersAlone | internal/controlplane/policy/policy_as_code.go:286-473 | auto and undeclared manual permissions, roles that are auto, undeclared manual or inexpressible with their grants and effects, inheritance between remaining roles, data policies out of reach, and all user bindings stay as they were |
| ImportFrame.OnlyFreeRolesDisappear | internal/controlplane/iac/diff.go:164-177 | a role that disappears was an undeclared iac role without users |
| ImportEffect.DeclaredPermissionIsStored | internal/controlplane/iac/diff.go:332-338 | a declared permission that was absent, manual or iac is stored with exactly the declared resource, action, type, name and description |
| ImportEffect.UndeclaredPermissionIsGone | internal/controlplane/policy/policy_as_code.go:462-470 | an undeclared iac permission is gone |
| ImportEffect.DeclaredRoleIsStored | internal/controlplane/policy/policy_as_code.go:350-414 | a declared role whose key was free, manual or iac is stored with the declared name and description, owned by policy-as-code, and granted exactly the declared permissions |
| ImportEffect.DeclaredScopesAreStored | internal/controlplane/iac/diff.go:360-384 | a declared role is stored with exactly the declared multiset of data scopes, if and only if it was not an otherwise unchanged iac role whose different scopes have the same comparison keys |
| ImportEffect.BarFreeScopesNeverCollide | internal/controlplane/iac/diff.go:377-384 | when no resource or effect holds a bar, scopes with equal keys are equal, so the exception never applies |
| ImportEffect.BarCollides | internal/controlplane/iac/diff.go:377-384 | two data scopes that differ and have one comparison key |
| ImportEffect.NewScopesBelongToImport | internal/controlplane/policy/policy_as_code.go:405-414 | the scopes of a created or adopted role are iac rows with the version of the import |
| ImportEffect.UndeclaredRoleIsGone | internal/controlplane/policy/policy_as_code.go:300-319 | an undeclared iac role is gone |
| ImportEffect.DeclaredPolicyIsStored | internal/controlplane/policy/policy_as_code.go:416-460 | a declared policy whose identity was free, manual or iac is stored in exactly one row, with the declared effect and condition, owned by policy-as-code |
| ImportEffect.StoredPolicyIsDeclared | internal/controlplane/policy/policy_as_code.go:416-460 | every iac top-level policy stored after an import is a declared one |
| ImportEffect.ConflictFreeIff | internal/controlplane/policy/policy_as_code.go:147-158 | a plan has no conflict if and only if no undeclared iac role has users and no declared or iac identity is stored in two rows |
| ImportEffect.BlockedIff | internal/controlplane/policy/policy_as_code.go:462-470 | an import without conflicts is blocked if and only if some role that keeps its grants holds an undeclared iac permission |
| Replan.ImportConverges | internal/controlplane/policy/policy_as_code.go:236-473 | planning the same document after a successful import finds nothing if and only if no written role repeats a permission code and no written top-level policy has the role subject type |
| Replan.PermissionSettled | internal/controlplane/iac/diff.go:84-135 | after an import no permission is left to do, without any condition |
| Replan.RoleSettled | internal/controlplane/iac/diff.go:360-375 | a written role is planned again exactly when its document repeats a permission code |
| Replan.PolicySettled | internal/controlplane/policy/policy_as_code.go:271-283 | a written policy is planned again exactly when its subject type is role, because it is then stored among the role scopes |
| ImportExamples.RepeatedCodeRecurs | internal/controlplane/iac/diff.go:360-375 | a finished import of a valid document whose role lists a code twice, and the update that the next plan holds |
| ImportExamples.RoleSubjectRecurs | internal/controlplane/policy/policy_as_code.go:271-283 | a finished import of a valid document with a top-level policy for a role, and the creation that the next plan holds |
| Export.ExportAppPolicy | internal/controlplane/policy/policy_as_code.go:53-103 | writes down exactly what the snapshot reads, in its order, or fails when two roles share a key |
| Export.ExportIsDetermined | internal/controlplane/store/source.go:138-212 | two exports of the same tables are the same document up to the order of the roles |
| Export.OwnExportOnlyAdopts | internal/controlplane/policy/policy_as_code.go:47-103 | the plan for an application's own valid export only adopts manual entities |
| Export.OwnImportKeepsRules | internal/controlplane/policy/policy_as_code.go:508-518 | importing one's own export keeps the projected rules if and only if no role taken over holds a grant other than allow |
| ImportExamples.OwnExportAllows | internal/controlplane/policy/policy_as_code.go:508-518 | an own export whose import turns a deny grant into an allow grant and lets a user in whom the tables denied |
| Relay.Outbox.DrainOnce | internal/controlplane/outbox/relay.go:38-83 | how far one batch came, exactly: the rows before that point are published in id order and marked if they decode, nothing else is; it stopped because publishing failed, which is no error, or because marking failed after the publication, which is one |
| Relay.DrainMeans | internal/controlplane/outbox/relay.go:64-83 | however far it came: only decodable rows of the batch get marked, marks follow publications, at most one publication stays unmarked, and an undisturbed drain marks all |
| Relay.Outbox.Commit | internal/controlplane/outbox/relay.go:40-42 | a new row keeps the relay's order even when rows of other applications have higher ids |
| Relay.PublishedInOrder | internal/controlplane/outbox/relay.go:64-81 | each publication repeats an earlier one or is its application's next version; nothing before it is skipped |
| Relay.UndecodableBatchBlocks | internal/controlplane/outbox/relay.go:66-69 | a batch without a decodable row changes nothing and is read again forever |
| Hub.Fanout.Dispatch | internal/controlplane/policysync/hub.go:57-72 | every stream of the app gets the event at the end of its queue, or, when that is full, keeps its queue and raises its flag; nothing blocks and other streams are untouched |
| Hub.Fanout.Register | internal/controlplane/policysync/hub.go:29-43 | a fresh empty stream joins its app's set |
| Hub.Fanout.Unregister | internal/controlplane/policysync/hub.go:45-55 | the stream leaves, and an empty app entry goes with it |
| Hub.Sender.SendEvent | internal/controlplane/policysync/server.go:131-137 | takes the oldest event off the queue, sends it, and remembers the version of a delta |
| Hub.Sender.SendOverflow | internal/controlplane/policysync/server.go:138-143 | lowers the flag, asks for a snapshot at the last version, and leaves the queue alone |
| Hub.Sender.SendHeartbeat | internal/controlplane/policysync/server.go:144-155 | every tenth heartbeat carries the version just read, if the read succeeded |
| Hub.NothingIsLostSilently | internal/controlplane/policysync/hub.go:57-72 | in every run the forwarded events are an ordered part of those offered, and after a drop the flag stays up until a snapshot is asked for |
| Wire.RuleToProto | internal/controlplane/translate/translate.go:53-62 | the counting loop drops exactly the trailing empty columns |
| Wire.PadUndoesTrim | internal/sidecar/syncclient/translate.go:46-55 | padding undoes trimming for every six-column rule |
| Wire.TrimUndoesPad | internal/sidecar/kernel/types.go:9-18 | trimming undoes padding exactly for values not ending in an empty one |
| Wire.EncodeRuleInjective | internal/sidecar/kernel/types.go:9-18 | different rules stay different once trimmed, so casbin's store of trimmed rules is a set of rules |
| Wire.DeltaToProto | internal/controlplane/translate/translate.go:10-33 | adds, then removes with the rule in the old-rule field, then data changes |
| Wire.DeltaFromProto | internal/sidecar/syncclient/translate.go:26-44 | decodes every change in order, or fails as soon as one has an unknown operation or more than six values |
| Wire.SnapshotFromProto | internal/sidecar/syncclient/translate.go:10-24 | fails exactly when some rule has more than six values |
| Wire.SnapshotRoundTrip | internal/sidecar/syncclient/translate.go:10-24 | a snapshot arrives with the rules it was read with |
| Wire.EncodedDecodes | internal/sidecar/syncclient/translate.go:71-98 | an encoded delta always decodes, to the same adds and removes with every rule where the kernel reads it |
| Wire.UpdateRoundTrip | internal/sidecar/syncclient/translate.go:71-98 | an update arrives with its new and its old rule as sent |
| Wire.ChangeIsRefusedIff | internal/sidecar/syncclient/translate.go:71-98 | a change is refused exactly for an unknown operation or a rule in use with more than six values, and with which error |
| Engine.WireKeepsRuleEffect | internal/sidecar/kernel/engine.go:150-163 | the decoded delta adds the loadable adds and removes the removes; for an exact delta that leads from the rules of one version to those of the next |
| Cache.BoundedCache.Set | internal/sidecar/kernel/cache.go:36-53 | the key becomes the most recent, at most capacity keys remain, and the one that gives way is the least recent |
| Cache.BoundedCache.Get | internal/sidecar/kernel/cache.go:55-64 | a hit returns the stored decision and makes the key the most recent; a miss changes nothing |
| Cache.BoundedCache.Delete | internal/sidecar/kernel/cache.go:66-76 | list and index lose the key together |
| Cache.RunHoldsMostRecent | internal/sidecar/kernel/cache.go:12-53 | after any run of touches the cache holds exactly the capacity most recently touched keys, in that order |
| Engine.Evaluate | internal/sidecar/kernel/model.go:7-21 | the matcher over a rule set and role reachability: some match allows and none denies |
| Engine.Kernel.ApplySnapshot | internal/sidecar/kernel/engine.go:81-127 | rules from a projection of the kernel's own domain are never refused as foreign and, when casbin works, become exactly the rules of a ready kernel; a grouping or permission rule of another domain is refused with nothing changed; a failure in between leaves the kernel not ready |
| Engine.Kernel.ApplyDelta | internal/sidecar/kernel/engine.go:129-163 | stale deltas change nothing; a change whose domain column is not the kernel's is refused with nothing changed; failures leave the kernel not ready; success applies the changes in order and clears the cache |
| Engine.CommittedDeltaIsHome | internal/sidecar/kernel/types.go:24-33 | what arrives of a delta between two projections of a domain carries that domain in column two of permissions and column three of groupings, so the kernel of the domain never refuses it as foreign |
| Engine.Kernel.Enforce | internal/sidecar/kernel/engine.go:54-63 | not ready and foreign are refused; otherwise the answer, cached or not, is the one the current rules give |
| Engine.Kernel.BatchEnforce | internal/sidecar/kernel/engine.go:223-267 | rows are answered in order up to the first malformed one; a row of another domain is answered with false |
| SyncClient.Client.Resync | internal/sidecar/syncclient/client.go:120-138 | a successful pull makes the kernel ready at the snapshot's version with its rules, and a pull of a projection of the domain succeeds when casbin works; a failed one at most interrupts the kernel |
| SyncClient.Client.HandleDelta | internal/sidecar/syncclient/client.go:157-186 | older deltas are ignored; the next one, between projections of the domain, is always decoded and applied when casbin works; anything else ends in a pull |
| SyncClient.Client.HandleEvent | internal/sidecar/syncclient/client.go:140-155 | pulls on a heartbeat ahead of the kernel and on request; ignores unknown events |
| SyncClient.Client.ConnectAndServe | internal/sidecar/syncclient/client.go:88-115 | each time the client waits for an event the kernel is ready, and each event is handled as its version demands |
| ClientMoves.HandledIsMoves | internal/sidecar/syncclient/client.go:140-186 | whatever the client's handling of an event leaves of the kernel and the connection, the state machine reaches in one or several moves, so its invariants hold of the client's own methods |
| ClientMoves.BootIsMoves | internal/sidecar/syncclient/client.go:88-104 | whatever bootstrapping and subscribing leave, the state machine reaches in the moves of a pull, a subscription and a registration |
| ClientMoves.HandlingIsSafe | internal/sidecar/syncclient/client.go:140-186 | a client at the end of any run that handles its next event keeps a ready kernel at exactly the rules committed at its version, which does not go back |
| Replication.MixBecomesExact | internal/sidecar/kernel/engine.go:132-163 | rules read at version k under label v are the rules of version w once w is at least k |
| Replication.MixAdvances | internal/sidecar/kernel/engine.go:150-163 | adding and removing the next delta leads from a mix to the next mix |
| Replication.StepKeeps | internal/sidecar/syncclient/client.go:89-186 | every step of relay, bus, hub, server and client keeps the invariant and never moves a sidecar's version back |
| Replication.ReplicationIsSafe | internal/sidecar/syncclient/client.go:72-186 | in every run a ready sidecar holds exactly the rules committed at its version, never ahead of the control plane, never falling back, and waits for events only when ready |
| Replication.TornSnapshotsHeal | internal/controlplane/policysync/server.go:56-89 | with torn reads the rules are a mix of two versions, and exact once the version reaches the reading point |
| Replication.TornReadsShow | internal/controlplane/policysync/server.go:71-78 | a run in which a torn read makes a ready sidecar hold rules its version never had |
| Replication.DropsAreCovered | internal/controlplane/policysync/hub.go:57-72 | in every run a dropped delta not yet caught up with has its flag up, its request under way, or a new enough snapshot coming |
| Replication.HeartbeatIsNoticed | internal/sidecar/syncclient/client.go:145-150 | after the reconciling heartbeat the sidecar is current or pulls |
| Replication.PullCatchesUp | internal/sidecar/syncclient/client.go:120-138 | a pull with no write in between ends current with exactly the current rules, or reconnects |
| Replication.CatchesUp | internal/controlplane/policysync/server.go:123-155 | once writes stop and the queue has drained, handling the next reconciling heartbeat leaves the sidecar at the current version with exactly its rules, torn snapshots included, or reconnecting |
| EndToEnd.RecordIsFaithful | internal/controlplane/policy/manager.go:109-128 | the recorded versions and outbox rows are a faithful history for replication, without any condition |
| EndToEnd.CommitIsWrite | internal/controlplane/policy/manager.go:100-132 | a commit of the write engine is a write step of the cluster |
| EndToEnd.DataCommitIsWrite | internal/controlplane/policy/manager.go:478-512 | so is a data-policy commit |
| EndToEnd.StoreWritesAreMoves | internal/controlplane/policy/manager.go:65-133 | whatever the store writes, the cluster it serves makes no move or one write move and is served by the new store |
| EndToEnd.StoreDataWritesAreMoves | internal/controlplane/policy/manager.go:478-512 | so it is for data-policy writes, whose move changes no rule |
| EndToEnd.ReadySidecarAnswersAsTables | internal/sidecar/kernel/engine.go:54-63 | over every run of a cluster served by a store that met no clash: a ready sidecar answers, for every user with a harmless name, as the tables committed with its version do, and at the current version as the current tables do |
| Conditions.All | internal/sidecar/dataperm/render_sql.go:39-54 | three-valued conjunction: true if and only if all parts are, false if and only if one is |
| Conditions.Any | internal/sidecar/dataperm/render_sql.go:39-54 | three-valued disjunction: true if and only if one part is, false if and only if all are |
| Conditions.ValidIffNodesFit | internal/sidecar/dataperm/condition.go:66-129 | the recursive check accepts a tree if and only if every node it visits has the field, the value and the number of children its operator demands |
| DataTable.Table.ApplySnapshot | internal/sidecar/dataperm/table.go:72-81 | buckets rebuilt in order |
| DataTable.RebuiltInOrder | internal/sidecar/dataperm/table.go:72-81 | a rebuilt bucket lists the policies of its resource in the order of the snapshot, and exists exactly when there is one |
| DataTable.Table.RemoveLocked | internal/sidecar/dataperm/table.go:98-112 | drops the first entry with the id from that bucket, and the key with an empty bucket |
| DataTable.Table.ApplyChange | internal/sidecar/dataperm/table.go:83-96 | an add appends to the bucket of the named resource, a removal drops its first entry with the id, an update does both; every other bucket stays |
| DataTable.ChangeKeepsMatchIff | internal/sidecar/dataperm/table.go:83-112 | a change keeps the table equal to a rebuilt one if and only if it names the bucket that holds its id, or adds a new id |
| DataTable.IncrementsEqualRebuilt | internal/sidecar/dataperm/table.go:72-125 | after any such changes every bucket is the same multiset as after a rebuild, and the same resources are configured |
| DataTable.RecordedChangesReachTables | internal/controlplane/policy/manager.go:478-512 | recorded changes name their buckets if and only if each keeps its policy in its resource, and then lead every table of the old policies to one of the new policies |
| DataTable.InPlaceChangesMissOnlyRemovals | internal/controlplane/policy/policy_as_code.go:236-285 | with subjects free of colons, the changes an import records all name their buckets if and only if every policy it removes has the empty resource: additions and in-place updates always do |
| DataTable.ControlPlaneRemovalIsLost | internal/controlplane/policy/manager.go:458-468 | a removal that carries only the id leaves the sidecar's entry in place |
| Filter.SelectAndMerge | internal/sidecar/dataperm/filter.go:37-77 | no configuration means no filter, a matching poisoned policy fails, the tree exists exactly when a policy other than deny has the user or one of the user's roles as its subject, otherwise deny all |
| Filter.MergedMeaning | internal/sidecar/dataperm/filter.go:60-76 | the merged tree means some allow and not some deny, in three-valued logic |
| Filter.RowPasses | internal/sidecar/dataperm/filter.go:60-76 | a row passes exactly when some allow is true and every deny is false; an unknown deny keeps it out |
| Filter.ResolveFails | internal/sidecar/dataperm/filter.go:114-159 | resolving fails exactly when the tree names a missing variable |
| Filter.MergeThenResolve | internal/sidecar/dataperm/filter.go:79-91 | resolving the merged tree equals merging the resolved trees, and they fail together |
| Filter.BuildPlan | internal/sidecar/dataperm/filter.go:79-91 | the plan's mode, tree and failures, stated over the selected policies |
| Filter.ResolvedOrderIsIrrelevant | internal/sidecar/dataperm/filter.go:49-76 | reordering a bucket changes neither failure nor mode nor the meaning of the tree |
| Filter.PlanDecidesRows | internal/sidecar/dataperm/filter.go:37-91 | the plan's tree is true of a row exactly when the row passes the user's resolved policies |
| RowAccess.PlanDecidesPolicies | internal/sidecar/dataperm/filter.go:37-91 | a row passes if and only if some stored allow policy of the resource, for the user or one of the roles, is true of it and every such deny policy is false of it |
| RowAccess.ConfiguredIff | internal/sidecar/dataperm/table.go:114-125 | in a table that stands for the policies a resource is configured exactly when some policy is about it |
| RowAccess.PlanOfPolicies | internal/sidecar/dataperm/filter.go:37-91 | for a configured resource, from the stored policies: deny-all exactly without an allow policy for the user or one of the roles, failure exactly on an unreadable policy that concerns the user or, when some allow concerns the user, on a missing attribute |
| RowAccess.VariableIsReplaced | internal/sidecar/dataperm/filter.go:133-146 | where "$user." and a name stood the attribute of that name stands, and any other text stays |
| RowAccess.ResolvedMeans | internal/sidecar/dataperm/filter.go:114-131 | resolving a valid condition and then reading it is reading it with the user's attributes; it fails exactly when a leaf names an attribute the user lacks |
| RowAccess.VariablesRemain | internal/sidecar/dataperm/filter.go:133-159 | a resolved value holds a variable if and only if an attribute put into it does |
| RenderSql.Builder.Render | internal/sidecar/dataperm/render_sql.go:37-64 | appends the tree's text and arguments to the shared builder |
| RenderSql.Builder.RenderLeaf | internal/sidecar/dataperm/render_sql.go:67-100 | the same for every leaf operator |
| RenderSql.PlansRender | internal/sidecar/dataperm/render_sql.go:35-37 | every tree that resolving valid policies yields is renderable, so the defensive errors cannot occur |
| RenderSql.FilterSql | internal/sidecar/dataperm/render_sql.go:15-33 | the three encodings of the three modes |
| RenderSql.CountIsArgs | internal/sidecar/dataperm/render_sql.go:67-100 | the text has exactly one question mark per argument |
| RenderSql.TreeIsNeitherEmptyNorDenyAll | internal/sidecar/dataperm/render_sql.go:15-33 | a tree never prints as the empty text or as deny-all |
| SqlText.LexJoin | internal/sidecar/dataperm/render_sql.go:37-100 | texts joined at a clean seam lex one after the other |
| SqlRoundTrip.LexPrinted | internal/sidecar/dataperm/render_sql.go:37-100 | the printed text has the tokens of the tree, its marks numbered from left to right |
| SqlRoundTrip.ParsesBack | internal/sidecar/dataperm/render_sql.go:37-100 | those tokens parse to the tree up to one-child nodes, whatever follows |
| SqlRoundTrip.HiddenKeywordFails | internal/sidecar/dataperm/condition.go:33-34 | a field spelled like an SQL keyword passes the field check but makes the text unreadable |
| SqlRoundTrip.PrintedReadsBack | internal/sidecar/dataperm/render_sql.go:37-100 | parsing and binding from left to right returns the tree up to one-child nodes, if and only if no field is a keyword |
| SqlRoundTrip.CollapseKeepsMeaning | internal/sidecar/dataperm/render_sql.go:39-54 | dropping one-child nodes keeps the meaning on every row |
| SydomSql.ToDollar | sdk/go/sydomsql/sydomsql.go:67-82 | the loop numbers every mark in order from the start index |
| SydomSql.DollarsNameArguments | sdk/go/sydomsql/sydomsql.go:67-82 | in the renumbered text mark i names argument start + i, and no number runs into what follows |
| SydomSql.DollarsAreRecoverable | sdk/go/sydomsql/sydomsql.go:67-82 | replacing the numbers by marks recovers the text |
| SydomSql.PrintedIsClean | sdk/go/sydomsql/sydomsql.go:68 | the renderer's texts meet the precondition the renumbering relies on |
| SydomSql.Build | sdk/go/sydomsql/sydomsql.go:46-65 | the kind of a clause, and the refusal of a fragment whose marks and arguments differ in number |
| SydomSql.BuildRendered | sdk/go/sydomsql/sydomsql.go:46-65 | a rendered plan is never refused and its kind is the plan's mode |
| SydomSql.AndWhere | sdk/go/sydomsql/sydomsql.go:84-111 | the three kinds of result under an empty or a given condition, and the refusal of a fragment whose marks and arguments differ in number |
| SydomSql.DenyAllPassesNothing | sdk/go/sydomsql/sydomsql.go:98-102 | under every condition that parses, and under none, a deny-all result parses to a condition that is false of every row |
| SydomSql.AndWhereConjoins | sdk/go/sydomsql/sydomsql.go:103-109 | the result parses as the conjunction of the caller's condition and the permission, or as the permission alone without one, each placeholder bound to its own argument |
| SydomSql.AnyBaseIsOneOperand | sdk/go/sydomsql/sydomsql.go:103-109 | a condition of any kind whose parentheses balance, with literals, functions or subqueries, is one operand of AND and the permission is the other |
| SydomSql.DenyAllUnderAnyBase | sdk/go/sydomsql/sydomsql.go:98-102 | under any such condition a deny-all result is false, whatever the condition means to the database |
| SydomSql.RenderedFilterDecidesRows | internal/sidecar/dataperm/render_sql.go:15-33 | from stored policies to rows: the SQL read back is true of a row if and only if some allow policy for the user or a role is true of it and every such deny policy is false of it |
| SafeKey.Derive | internal/controlplane/tenanttemplate/bundle.go:52-68 | terminates by pigeonhole with the first candidate not taken, and takes it; a free code of at most 30 bytes without a colon is its own key |
| SafeKey.DeriveAll | internal/controlplane/tenanttemplate/bundle.go:52-68 | distinct, non-empty, colon-free keys, at most 37 bytes for the first 999999 roles |
| SafeKey.CodeFits | internal/controlplane/tenanttemplate/bundle.go:15-18 | such a key fits the 64-byte role code for every template id |
| SafeKey.TemplateCodeInjective | internal/controlplane/tenanttemplate/bundle.go:15-18 | the role code of an applied template determines template and key, whatever the key |
| SafeKey.CodeOverflows | internal/controlplane/tenanttemplate/bundle.go:15-18 | one more byte no longer fits for the largest id |

## Left out

- Applying a stored template (internal/controlplane/policy/manager.go:269-365): another loop of the statements modelled here; template keys are in `SafeKey`.
- Generated role codes, operators, and the JSON text of audit diffs: a created role's code is a parameter, and an audit row keeps the delta itself.
- A write engine without an outbox sink: the sink is always there.
- Column lengths, and the description column of data policies.
- The explanation texts of plan items.
- Export.ExportAppPolicy: roles come in the order of their generated ids, which the model does not have, so their order is left open.
- Snapshot.SnapshotCurrent: codes come in byte order, where a database's collation may order them otherwise.
- SydomSql.AnyBaseIsOneOperand: string literals and comments of a caller's condition are not tokens of their own, so a parenthesis or a question mark inside them counts like any other.
- YAML, JSON and the normalisation of conditions: documents are typed, conditions in them are canonical texts, condition trees are typed and hold no null children.
- Casbin internals: its store is a set of rules, its role manager is reachability without a depth limit, its cache key is the request itself.
- ClientMoves.HandledIsMoves: the pull is answered while nothing is committed; pulls with commits in between are moves of the state machine only.
- One apply and one decision are atomic steps; interleavings inside an apply, which the code accepts, are not modelled.
- DataTable.ChangeKeepsMatchIff: the end-to-end equality between control plane and sidecar is proved for rules; for data policies it needs the stated premise on changes.
- Replication.ReplicationIsSafe: data policies travel with the deltas, but the invariant over runs speaks of rules only.
- Replication of several sidecars and several replicas: they do not influence one another except through the shared history, so one sidecar stands for all.
- Back-off, timers, leader election, metrics, hooks and authentication of the sync connection.
- SQL words outside the eight keywords that the renderer itself uses: a field named like another reserved word of a database is not detected here.
- The raw and symbolic filter dialects, which show the same tree without printing SQL.
- The rest of the capture: only the derivation of keys is modelled.
