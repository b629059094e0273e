# Kuberpult: RBAC policy validation and the cd-service git queries

This project models two parts of kuberpult, a GitOps deployment platform.

1. **Role-based access control** (`pkg/auth/rbac.go`).
   - A policy file has one permission per line: `p,<role>,<application>,<action>,<environment>,allow`.
   - Each line is validated field by field and then collected into a table keyed by the line with its spaces removed.
   - A user's request is allowed exactly when its formatted permission key is in that table.
2. **The cd-service `GitServer` queries** (`services/cd-service/pkg/service/git.go`).
   - Resolving a possibly abbreviated commit hash against the `commits/<2>/<38>` layout of the manifest repository.
   - Assembling a commit's message, touched applications and events.
   - Building the product summary of an environment or environment group from an overview of the deployments.

Modules:

- `Results`: Option, Result and Outcome values for the error paths.
- `GoStrings`: the parts of Go's `strings` and `strconv` packages the code uses.
  - `strings.Split`, with its round trip through a join.
  - `strings.ReplaceAll` of spaces, and `strings.ToLower`.
  - The byte order of Go's `<` on strings.
  - `strconv.FormatUint` in base 10, which is proved injective.
- `Sorting`: `sort.Slice` and `sort.Strings` as an in-place sort of an array.
  - Its contract is only "sorted and a permutation", since `sort.Slice` is not stable.
- `Rbac`: the validators, the policy table, and the permission check.
- `GitCommits`: `findCommitID`, `ReadEvent`, `GetEvents` and `GetCommitInfo` over an abstract repository filesystem.
  - A directory path maps to its entries (name and whether it is a directory).
  - A file path maps to its contents.
- `ProductSummaries`: `GetProductSummary` over an overview given as a value.

Collaborators whose code is not part of this model are parameters:

- `valid.EnvironmentName` is a predicate `envName`.
- `valid.SHA1CommitIDPrefix`, UUID parsing, `uuid.GetTime` and `eventmod.NewReleaseEventName` are fields of `GitCommits.Externals`.
- The result of `GetOverview` is an `Option<Overview>` input.
- The lines of `policy.csv` are a sequence of strings.

Where the Go code changes state step by step, the model is imperative:

- the scanner loop filling the policy map;
- the scan of a commit directory with its early return;
- the loops appending events, environment names, touched applications and summary rows;
- the in-place sorts.

Each such method is proved equal to a specification function, or to a specification predicate for the sorted results. The properties are then proved about those functions.

## Model

| member | source | states |
|---|---|---|
| GoStrings.Split | pkg/auth/rbac.go:79 | `strings.Split` yields one more piece than there are separators, no piece contains the separator, and joining the pieces gives back the input |
| GoStrings.SplitJoin | pkg/auth/rbac.go:113 | splitting a join of separator-free pieces returns exactly those pieces |
| GoStrings.SplitJoinCount | pkg/auth/rbac.go:113-114 | if a join splits into as many pieces as it was made of, the pieces were separator-free and come back unchanged |
| GoStrings.JoinOccurrences | pkg/auth/rbac.go:113-114 | a join of n pieces holds at least n-1 separators, exactly n-1 only when no piece holds one |
| GoStrings.RemoveSpaces | pkg/auth/rbac.go:155 | the result has no spaces, is shorter by the number of spaces, and is the input itself when it had none |
| GoStrings.RemoveSpacesAppend | pkg/auth/rbac.go:155 | removing spaces from a concatenation removes them from each part, so the other characters keep their order |
| GoStrings.RemoveSpacesKeepsOthers | pkg/auth/rbac.go:155 | every character other than a space is kept, as often as it occurs |
| GoStrings.ToLower | services/cd-service/pkg/service/git.go:265 | lower-casing keeps the length and maps each character on its own |
| GoStrings.LessIrreflexive | services/cd-service/pkg/service/git.go:87-91 | no string sorts before itself |
| GoStrings.LessAsymmetric | services/cd-service/pkg/service/git.go:87-91 | two strings are never each before the other |
| GoStrings.NotLessTransitive | services/cd-service/pkg/service/git.go:100-104 | "not before" is transitive, so equal-keyed rows form classes a sort can order |
| GoStrings.LessTotal | services/cd-service/pkg/service/git.go:166 | of two different strings one sorts before the other |
| GoStrings.LessIsStrictWeakOrder | services/cd-service/pkg/service/git.go:166 | Go's string order is a strict weak order |
| GoStrings.Decimal | services/cd-service/pkg/service/git.go:79 | `FormatUint(v, 10)` is a non-empty string of digits, with a leading zero only for zero |
| GoStrings.DecimalValue | services/cd-service/pkg/service/git.go:79 | the digits of `FormatUint(v, 10)`, read left to right, denote `v` |
| GoStrings.DecimalInjective | services/cd-service/pkg/service/git.go:119 | different numbers have different decimal strings, so comparing strings compares versions |
| Sorting.Sort | services/cd-service/pkg/service/git.go:87-91 | the array ends sorted by the given strict weak order and is a permutation of its old contents |
| Sorting.SwapNeighbours | services/cd-service/pkg/service/git.go:100-104 | swapping two adjacent elements keeps the multiset and changes nothing else |
| Sorting.SortedFromNeighbours | services/cd-service/pkg/service/git.go:205-207 | for a strict weak order, adjacent pairs in order make the whole sequence sorted |
| Sorting.InOrderAcross | services/cd-service/pkg/service/git.go:205-207 | for a strict weak order, order between neighbours carries across a run |
| Rbac.ValidateApp | pkg/auth/rbac.go:40-64 | an application is accepted exactly when it is one of the five allowed names; the empty value has its own error |
| Rbac.ValidateAction | pkg/auth/rbac.go:66-76 | an action is accepted exactly when it is `*`, `Create` or `Delete`; otherwise invalid-action with that value |
| Rbac.ValidateEnvs | pkg/auth/rbac.go:78-100 | accepted exactly when non-empty, with at most one `:`, and every part a valid environment name; a bad group part gives the group error, every other failure the environment error |
| Rbac.ValidateRbacPermission | pkg/auth/rbac.go:110-138 | accepted exactly when there are six fields and app, action and environment pass; a wrong count reports the count; checks run in order count, app, action, environment, first error wins; the permission is fields 1 to 4 |
| Rbac.ValidateFormattedLine | pkg/auth/rbac.go:132-137 | a line made of six comma-free fields whose app, action and environment are valid parses to exactly the permission of its middle fields |
| Rbac.OuterFieldsIgnored | pkg/auth/rbac.go:113-137 | the first and last fields of a line are never inspected: lines agreeing on fields 1 to 4 give the same result |
| Rbac.ReadRbacPolicy | pkg/auth/rbac.go:140-166 | the scanner loop returns exactly the policy specified line by line: none when dex is off, the first invalid line's error, a missing-policy error for an empty table |
| Rbac.PolicyTableOkIffAllValid | pkg/auth/rbac.go:153-161 | the table is built exactly when every line, without its spaces, validates |
| Rbac.PolicyTableFirstError | pkg/auth/rbac.go:156-159 | the error returned is that of the first invalid line |
| Rbac.PolicyTableEntries | pkg/auth/rbac.go:155-160 | the keys are exactly the space-free lines, each mapped to its parsed permission |
| Rbac.PolicyFromLinesContents | pkg/auth/rbac.go:140-166 | with dex on, a policy exists exactly when there is a line and all lines are valid; no lines gives the missing-policy error; the keys are the space-free lines and each maps to its parse |
| Rbac.PermissionKeyFields | pkg/auth/rbac.go:172 | the wanted permission is the comma join of `p`, role, application, action, `env:envGroup` and `allow` |
| Rbac.CheckUserPermissions | pkg/auth/rbac.go:168-179 | always allowed with dex off; with dex on allowed exactly when the formatted key is in the policy, otherwise permission-denied naming that key |
| Rbac.PermissionKeySplit | pkg/auth/rbac.go:172 | a key that splits into six fields has comma-free arguments and splits back into exactly them |
| Rbac.EnvPairSplit | pkg/auth/rbac.go:79-92 | an `env:envGroup` pair with at most one colon has colon-free parts and splits into exactly them |
| Rbac.GrantedPermissionIsValid | pkg/auth/rbac.go:140-179 | a request granted by a policy read from lines has arguments free of commas and spaces, a valid app and action, and env and group that are each a valid name; the entry is that exact permission |
| GitCommits.MatchingNames | services/cd-service/pkg/service/git.go:291-297 | the names that start with the prefix, one per entry, at most as many as entries |
| GitCommits.MatchingNamesComplete | services/cd-service/pkg/service/git.go:293-297 | every entry that starts with the prefix contributes its name |
| GitCommits.MatchingNamesFromEntries | services/cd-service/pkg/service/git.go:293-303 | every matching name is the name of an entry |
| GitCommits.MatchingPositionsExtend | services/cd-service/pkg/service/git.go:293-297 | one more entry adds its position to the matching positions exactly when it matches |
| GitCommits.MatchingNamesCount | services/cd-service/pkg/service/git.go:293-304 | there are as many matching names as matching entry positions |
| GitCommits.MatchingNamesPrefix | services/cd-service/pkg/service/git.go:298-302 | the matches among the first k entries begin the matches of all, so a second match seen early means at least two in total |
| GitCommits.LookupCommitId | services/cd-service/pkg/service/git.go:256-310 | a resolved id starts with the lower-cased prefix and has at least 7 characters; every failure is InvalidArgument or NotFound |
| GitCommits.FindCommitId | services/cd-service/pkg/service/git.go:256-310 | the method returns exactly the specified lookup |
| GitCommits.FindInDirectory | services/cd-service/pkg/service/git.go:291-309 | the directory scan with early return gives not-found for no match, the directory part plus the name for one, not-unique for more |
| GitCommits.LookupRejectsBeforeReading | services/cd-service/pkg/service/git.go:261-282 | an invalid or short partial prefix gives InvalidArgument, whatever the filesystem holds |
| GitCommits.LookupFullLength | services/cd-service/pkg/service/git.go:265-278 | a valid full-length hash resolves to itself lower-cased exactly when its commit directory exists, and is not found otherwise |
| GitCommits.LookupUnreadableDirectory | services/cd-service/pkg/service/git.go:284-289 | a valid partial prefix whose `commits/<first two>` directory cannot be read is NotFound |
| GitCommits.LookupPartialPrefix | services/cd-service/pkg/service/git.go:284-309 | for a readable commit directory: success exactly when one entry matches (the id is the first two characters plus that entry), not-unique exactly when two or more match, not-found exactly when none does |
| GitCommits.LookupFindsExistingCommit | services/cd-service/pkg/service/git.go:266-309 | in a filesystem whose entries exist, a resolved commit's path exists |
| GitCommits.DirNames | services/cd-service/pkg/service/git.go:227-237 | a name is listed exactly when a subdirectory entry has it |
| GitCommits.EventAt | services/cd-service/pkg/service/git.go:211-250 | an event is read exactly when the type file holds the new-release name and the environments directory is readable; it carries the UUID's time and exactly the subdirectory names |
| GitCommits.ReadEvent | services/cd-service/pkg/service/git.go:211-250 | the method returns exactly the specified event |
| GitCommits.CreatedBeforeIsStrictWeakOrder | services/cd-service/pkg/service/git.go:205-207 | ordering by creation time is a strict weak order |
| GitCommits.GetEvents | services/cd-service/pkg/service/git.go:181-209 | fails exactly when the specified collection fails, with its error; otherwise the collected events sorted by creation time |
| GitCommits.EventsIgnoreFiles | services/cd-service/pkg/service/git.go:188-190 | plain files among the event entries never change the result |
| GitCommits.EventsRejectNonUuid | services/cd-service/pkg/service/git.go:191-195 | any subdirectory whose name is not a UUID makes the collection fail |
| GitCommits.EventsFromContents | services/cd-service/pkg/service/git.go:188-204 | on success there is one event per subdirectory, in order, each read from that subdirectory with a UUID name |
| GitCommits.Names | services/cd-service/pkg/service/git.go:162-165 | the touched applications are the names of all entries, in order |
| GitCommits.GetCommitInfo | services/cd-service/pkg/service/git.go:130-179 | disabled commit data is FailedPrecondition; otherwise lookup, message, applications and events fail in that order; on success the resolved hash, the message, and the sorted touched apps and sorted events |
| GitCommits.CommitInfoNamesRequestedCommit | services/cd-service/pkg/service/git.go:131-144 | a successful answer needs commit data on and names a commit that starts with the lower-cased request and, in a well-formed filesystem, exists |
| ProductSummaries.AppRows | services/cd-service/pkg/service/git.go:78-80 | one row per deployed application, in order, with its decimal version and the given environment |
| ProductSummaries.DeployedRows | services/cd-service/pkg/service/git.go:97-99 | the loop over an environment's applications builds exactly those rows |
| ProductSummaries.CollectRowsIn | services/cd-service/pkg/service/git.go:76-82 | the loop over a group's environments keeps exactly those with the requested name |
| ProductSummaries.CollectEnvironmentRows | services/cd-service/pkg/service/git.go:75-83 | the environment-mode loops build exactly the rows of every environment of that name in any group |
| ProductSummaries.RowBeforeIsStrictWeakOrder | services/cd-service/pkg/service/git.go:87-91 | ordering rows by application name is a strict weak order, derived from the one on strings |
| ProductSummaries.SortRows | services/cd-service/pkg/service/git.go:87-91 | the rows sorted by application name, a permutation of the input |
| ProductSummaries.GroupBlocks | services/cd-service/pkg/service/git.go:95-106 | one sorted block per environment of the group, concatenated in environment order |
| ProductSummaries.CollectGroupRows | services/cd-service/pkg/service/git.go:93-108 | the group-mode loops concatenate the sorted blocks of every environment of every group with the requested name |
| ProductSummaries.BlocksForSnoc | services/cd-service/pkg/service/git.go:105 | appending the next environment's sorted block keeps one sorted block per environment |
| ProductSummaries.BlocksForAppend | services/cd-service/pkg/service/git.go:93-108 | the blocks of two groups together are the blocks of their environments together |
| ProductSummaries.FlattenAppend | services/cd-service/pkg/service/git.go:105 | concatenating blocks distributes over appending them |
| ProductSummaries.FirstMatch | services/cd-service/pkg/service/git.go:118-123 | the first release whose decimal version is the row's, and no earlier one matches; none when no release matches |
| ProductSummaries.FirstMatchIsFirst | services/cd-service/pkg/service/git.go:119-122 | the release where the loop breaks is the first match |
| ProductSummaries.ReleaseEntry | services/cd-service/pkg/service/git.go:117-123 | the release search with `break` adds the entry of the first matching release of a same-named application, or nothing |
| ProductSummaries.JoinOneRow | services/cd-service/pkg/service/git.go:116-125 | the loop over applications for one row builds exactly the specified entries |
| ProductSummaries.JoinWithReleases | services/cd-service/pkg/service/git.go:114-126 | the join loops build exactly the specified entries, row by row |
| ProductSummaries.GetProductSummary | services/cd-service/pkg/service/git.go:56-128 | the three request errors in order, then the overview error. Environment mode gives the joined rows of the named environment sorted by app, or an empty answer when there are none. With a nil group it gives a crash if there is any group, else a nil answer. Group mode gives the joined sorted blocks, or a nil answer when there are no rows |
| ProductSummaries.JoinRowsAppend | services/cd-service/pkg/service/git.go:115-126 | the join of concatenated rows is the concatenation of the joins: output keeps row order |
| ProductSummaries.JoinRowOrigin | services/cd-service/pkg/service/git.go:116-124 | one row yields at most one entry per application, each the contribution of one application |
| ProductSummaries.JoinRowsOrigin | services/cd-service/pkg/service/git.go:114-126 | every joined entry comes from one row and one application of that row's name |
| ProductSummaries.JoinedEntryFields | services/cd-service/pkg/service/git.go:117-121 | an entry carries its row's app, version and environment, the application's team, and the commit id and display version of a release whose decimal version is the row's |
| ProductSummaries.JoinedReleaseIsDeployed | services/cd-service/pkg/service/git.go:119-120 | the release an entry is taken from has the deployed version itself |
| ProductSummaries.JoinKeepsOrder | services/cd-service/pkg/service/git.go:114-126 | joining rows sorted by app gives entries sorted by app |
| ProductSummaries.AppRowsTagged | services/cd-service/pkg/service/git.go:79 | every row of an environment's applications carries the given environment |
| ProductSummaries.EnvRowsInTagged | services/cd-service/pkg/service/git.go:76-82 | every row collected from a group carries the requested environment |
| ProductSummaries.EnvModeRowsTagged | services/cd-service/pkg/service/git.go:75-83 | every environment-mode row carries the requested environment |
| ProductSummaries.EnvironmentModeEntries | services/cd-service/pkg/service/git.go:74-127 | in environment mode every entry is tagged with the requested environment and the entries are sorted by app |
| ProductSummaries.NoSuchEnvironment | services/cd-service/pkg/service/git.go:74-86 | when no environment has the requested name there are no rows, so the answer is empty |
| ProductSummaries.NoSuchEnvironmentIn | services/cd-service/pkg/service/git.go:76-77 | a group without an environment of the requested name contributes no rows |
| ProductSummaries.FlattenTagged | services/cd-service/pkg/service/git.go:98-105 | every group-mode row carries the name of one of the group's environments |
| ProductSummaries.GroupModeEntries | services/cd-service/pkg/service/git.go:93-127 | in group mode every entry carries the name of an environment of a group with the requested name |

## Left out

- The `EnvSelectionDialog` React component is UI code and outside this model.
- The transformer engine and the Argo CD repository server are outside this model.
- `GetGitTags` is left out: it only wraps `repository.GetTags`.
- `GetOverview` is not modelled: its answer is an input, `None` when the call fails.
- The billy filesystem is a value.
  - Reads are map lookups.
  - Any read error other than "does not exist" is a single `NotAFile` case.
  - Paths are component lists rather than joined strings.
- Logging is left out: the warning for non-directory environment entries and the formatted error texts.
- gRPC status objects are left out: failures are error values, and `GitCommits.CodeOf` gives the gRPC code where the source sets one.
  - `grpcErrors.NotFoundError` is assumed to produce the NotFound code.
- `os.Open` of `policy.csv` and the `bufio.Scanner` are left out: `Rbac.ReadRbacPolicy` takes the lines as a sequence.
  - A failing open and a scanner error are not modelled.
- Validity predicates are parameters:
  - `valid.EnvironmentName` and `valid.SHA1CommitIDPrefix` are arbitrary predicates;
  - `timeuuid.ParseUUID` is a predicate on the directory name;
  - `uuid.GetTime` is an arbitrary function to nanoseconds;
  - `eventmod.NewReleaseEventName` is an arbitrary string.
- The event message is reduced to its creation time and environment names, the only contents the source sets.
- Go maps the source iterates over are sequences in iteration order:
  - the environments' applications;
  - the overview's applications.
- A nil slice and an empty one are not distinguished, except for the nil product-summary answer (`None`).
- The nil-pointer dereference when `Environment` is `""` and `EnvironmentGroup` is nil is the error `NilEnvironmentGroup`.
  - It is reached only when the overview has at least one group.
  - The panic or its recovery is not modelled further.
- GoStrings.ToLower: only ASCII letters are lower-cased. Prefixes accepted by `valid.SHA1CommitIDPrefix` are expected to be ASCII.
  - Lengths count characters, not UTF-8 bytes.
- GoStrings.Decimal: `uint64` versions are natural numbers without the 64-bit bound.
- Sorting.Sort: the order among elements with equal keys is not fixed, as `sort.Slice` is not stable. Only "sorted and a permutation" is stated.
- The `RBACConfig` and `User` structures are reduced to what `CheckUserPermissions` reads: the dex flag, the policy and the role.
