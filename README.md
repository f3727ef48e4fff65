# Designer command options in Dafny

This project models the configuration-storage and agent-mode command records of the
`designer` Go package, which builds the command line for the 1C:Enterprise designer
(`DESIGNER` mode). The package has other option records too (loading, dumping and
restoring configurations and infobases, creating file infobases); those are not part of
this model. The modelled records are the ones that create, bind, unbind, dump and
update a configuration storage; add and copy storage users; report on storage history;
clear the three storage caches; and start agent mode.

The records offer value-copy builders (`With*`, `From*`, `GroupBy*`) and `Values`, the
rendered argument vector. The storage records other than the cache records are built by
constructor methods on the connection record `Repository`. Only the create record
(repository.go:134) and the agent record (agent.go:57) declare their own cross-field
`Check`; the other storage records take theirs from the embedded `Designer`. For the
create, add-user, copy-users and report commands, `Values` also runs the pass
`fixExtensionIndex`, which moves the first token that contains `-Extension` to the end.

Modules, by source file:

- `Types` (types.go): command names, `Int64`, `Option`, `Result`, `CheckError`, and the
  opaque `Designer` launch settings.
- `Commands` (types.go): the `command` interface (`Command`, `Check`, `Values`) as a sum
  type over the twelve modelled records.
- `ExtensionFixup` (repository.go:149-169): `strings.Contains`, the specification
  function `Relocated`, its lemmas, and `FixExtensionIndex`. `FixExtensionIndex` is the
  in-place array algorithm that the Go code performs through slice aliasing.
- `Repo` (the rest of repository.go): `Repository`, the two string enumerations and
  their `MarshalV8`, and the create command.
- `RepositoryCfg`, `RepositoryUsers` and `RepositoryService`: the records, constructors
  and builders of repositoryCfg.go, repositoryUsers.go and repositoryService.go.
- `RepositoryCache`: the three records of repositoryCache.go and their `WithRepository`
  builders (the file has no constructors).
- `Agent` (agent.go): the agent-mode record, its builders, `Command` and `Check`.

Three points of the code that are easy to misread:

- The pass matches with `strings.Contains`, not with a prefix test.
- The pass relocates only the first matching token.
- For the create, add-user, copy-users and report commands the effect is an in-place
  rotation of the suffix that starts at that token. The pointer reassignment at
  repository.go:166 has no effect on the caller.

## Model

| member | source | states |
|---|---|---|
| `ExtensionFixup.ContainsIff` | repository.go:154 | `Contains` (Go's `strings.Contains`) holds exactly when the substring occurs at some position of the token, in both directions |
| `ExtensionFixup.MarkerFoundInsideToken` | repository.go:154 | a token that has `-Extension` after other text matches although it does not start with it: the test is containment, not a prefix |
| `ExtensionFixup.FirstExtension` | repository.go:151-158 | the search loop's index holds the marker and no earlier token does; no index is found exactly when no token holds the marker |
| `ExtensionFixup.RelocatedIsPermutation` | repository.go:160-164 | the pass keeps the length and is a permutation of the input |
| `ExtensionFixup.RelocatedMovesFirstToEnd` | repository.go:153-164 | the first marker token ends up last; tokens before it stay in place; all other tokens keep their relative order |
| `ExtensionFixup.RelocatedWithoutMarker` | repository.go:153-160 | without a marker token the vector is unchanged |
| `ExtensionFixup.RelocatedLeavesLaterMarkers` | repository.go:153-164 | a later marker token only shifts one place left and is not moved to the end |
| `ExtensionFixup.RelocatedEndsWithMarker` | repository.go:160-164 | any relocated vector that holds a marker token ends with one |
| `ExtensionFixup.RelocatedHasMarker` | repository.go:160-164 | the pass never drops a marker token |
| `ExtensionFixup.RelocatedOnceIsStable` | repository.go:149-169 | with a single marker token, running the pass twice equals running it once |
| `ExtensionFixup.ShiftLeft` | repository.go:163 | `append(val[:i], val[i+1:]...)` shifts the elements after `i` one place left in the same array and leaves the last slot as it was |
| `ExtensionFixup.FixExtensionIndex` | repository.go:149-169 | the caller's array afterwards equals `Relocated` of its old contents |
| `ExtensionFixup.RelocateExtension` | repository.go:126-132 | marshal then fix: the result is `Relocated` of the vector, a permutation of it, and ends with a marker token whenever the vector holds one |
| `Repo.RightMarshalV8` | repository.go:30-32 | never fails; wrapping the returned text gives back the right |
| `Repo.SupportMarshalV8` | repository.go:26-28 | never fails; wrapping the returned text gives back the support rule |
| `Repo.MarshalV8Constants` | repository_test.go:207-291 | the named rights and support rules encode to the texts the table tests expect |
| `Repo.Repository.Connect` | repository.go:116-124 | the connection copy that every `WithRepository` performs: Path, User and Password from the source, Extension kept |
| `Repo.ConnectLastWins` | repository.go:116-124 | connecting twice equals connecting to the second source; connecting to the same source twice equals connecting once |
| `Repo.PlainTokensHaveNoMarker` | repository_test.go:419-423 | the vector expected for a repository without extension holds no `-Extension` token |
| `Repo.RepositoryValuesNeedNoRelocation` | repository_test.go:399-454 | for any `Marshal` that matches both test vectors of `Repository.Values`: only the extension case holds a marker token, and it is already last, so relocating would change nothing |
| `Repo.RepositoryCreateOptions.WithRepository` | repository.go:116-124 | copies Path, User and Password; Extension and every other field unchanged |
| `Repo.Check` | repository.go:134-146 | exactly one failure when changes are allowed and either support rule is empty, none otherwise |
| `Repo.Create` | repository.go:96-114 | no rule: changes disallowed, both rules unset. Any rule: changes allowed and the allowed rule is `rules[0]`. The not-recommended rule is set only for exactly two rules |
| `Repo.CreateCheckedIff` | repository.go:96-146 | a created record passes `Check` iff no rule is given, or exactly two non-empty rules; one rule or three and more always fail |
| `RepositoryCfg.RepositoryBindCfgOptions.WithRepository` | repositoryCfg.go:256-264 | copies Path, User and Password; Extension and both force flags unchanged |
| `RepositoryCfg.Bind` | repositoryCfg.go:40-57 | `ForceReplaceCfg` is `force[0]`. `ForceBindAlreadyBindedUser` is `force[1]` only when more than two flags are given, else `force[0]`. Both are false with no flag. The embedded record is the receiver |
| `RepositoryCfg.BindArity` | repositoryCfg.go:47-53 | with exactly two flags the second is ignored; with none both flags are off |
| `RepositoryCfg.RepositoryUnbindCfgOptions.WithRepository` | repositoryCfg.go:266-274 | copies Path, User and Password; Extension and `Force` unchanged |
| `RepositoryCfg.Unbind` | repositoryCfg.go:92-105 | `Force` is the first flag if present, else false |
| `RepositoryCfg.RepositoryDumpCfgOptions.WithRepository` | repositoryCfg.go:246-254 | copies Path, User and Password; Extension, File and Version unchanged |
| `RepositoryCfg.DumpCfg` | repositoryCfg.go:134-148 | sets File; Version is the first optional argument, else 0 |
| `RepositoryCfg.RepositoryUpdateCfgOptions.WithObjects` | repositoryCfg.go:212-218 | sets `Objects` and nothing else |
| `RepositoryCfg.RepositoryUpdateCfgOptions.WithRepository` | repositoryCfg.go:220-228 | copies Path, User and Password; Extension and the update fields unchanged |
| `RepositoryCfg.UpdateCfg` | repositoryCfg.go:230-244 | sets Version; `Force` is the first optional flag, else false; `Revised` and `Objects` unset |
| `RepositoryCfg.UpdateBuildersCommute` | repositoryCfg.go:212-228 | `WithObjects` and `WithRepository` commute; a second `WithObjects` overrides the first |
| `RepositoryUsers.RepositoryAddUserOptions.WithRepository` | repositoryUsers.go:44-52 | changes only the local Path, User and Password |
| `RepositoryUsers.AddUser` | repositoryUsers.go:54-70 | sets NewUser, NewPassword and Rights from the arguments; `RestoreDeletedUser` is the first optional flag, else false |
| `RepositoryUsers.RepositoryCopyUsersOptions.WithRepository` | repositoryUsers.go:102-110 | changes only the local Path, User and Password |
| `RepositoryUsers.RepositoryCopyUsersOptions.FromRepository` | repositoryUsers.go:112-120 | changes only RemotePath, RemoteUser and RemotePwd |
| `RepositoryUsers.CopyUsers` | repositoryUsers.go:122-138 | RemotePath, RemoteUser and RemotePwd come from `path`, `user` and `password`; the restore flag is the first optional flag, else false |
| `RepositoryUsers.CopyUsersFromRepository` | repositoryUsers.go:140-156 | the remote fields come from the source record's Path, User and Password |
| `RepositoryUsers.CopyUsersFromRepositoryIsCopyUsers` | repositoryUsers.go:112-156 | equals `CopyUsers(src.Path, src.User, src.Password, b...)` and equals re-pointing any such record with `FromRepository(src)`; the source's Extension is ignored |
| `RepositoryUsers.WithAndFromRepositoryCommute` | repositoryUsers.go:102-120 | the local and the remote builders commute |
| `RepositoryService.GroupByMarshalV8` | repositoryService.go:9-11 | never fails; wrapping the returned text gives back the grouping |
| `RepositoryService.RepositoryReportOptions.GroupByObject` | repositoryService.go:58-64 | GroupBy becomes `-GroupByObject`; nothing else changes |
| `RepositoryService.RepositoryReportOptions.GroupByComment` | repositoryService.go:66-72 | GroupBy becomes `-GroupByComment`; nothing else changes |
| `RepositoryService.GroupByLastWins` | repositoryService.go:58-72 | of chained grouping calls the last wins; each is idempotent |
| `RepositoryService.RepositoryReportOptions.WithRepository` | repositoryService.go:74-82 | copies Path, User and Password; Extension and the report fields unchanged |
| `RepositoryService.Report` | repositoryService.go:84-101 | sets File; NBegin is the first version if any; NEnd is the second only when more than two versions are given; grouping unset |
| `RepositoryService.ReportTwoVersionsDropEnd` | repositoryService.go:92-99 | with exactly two versions the end is dropped: the record equals the one built from the start version alone |
| `RepositoryCache.RepositoryClearGlobalCacheOptions.WithRepository` | repositoryCache.go:23-31 | sets Path, User and Password from the source; Extension and the launch settings unchanged |
| `RepositoryCache.RepositoryClearCacheOptions.WithRepository` | repositoryCache.go:49-57 | sets Path, User and Password from the source; Extension and the launch settings unchanged |
| `RepositoryCache.RepositoryClearLocalCacheOptions.WithRepository` | repositoryCache.go:75-83 | sets Path, User and Password from the source; Extension and the launch settings unchanged |
| `RepositoryCache.WithRepositoryLastWins` | repositoryCache.go:23-83 | for all three records, a second `WithRepository` overrides the first, and applying the same source twice is idempotent |
| `Agent.AgentModeOptions.WithBaseDir` | agent.go:74-80 | changes only BaseDir |
| `Agent.AgentModeOptions.WithListenAddress` | agent.go:82-93 | changes only ListenAddress and Port. They come from the split host and the parsed port. A failed split gives an empty host and the parse of `""`. The builder never fails |
| `Agent.Command` | agent.go:53-55 | always `DESIGNER` |
| `Agent.Check` | agent.go:57-66 | exactly one failure when `SSHHostKeyAuto` is false and `SSHHostKey` is empty, none otherwise |
| `Agent.CheckDependsOnHostKeyOnly` | agent.go:57-93 | with the automatic host key the check passes whatever the explicit key; the builders never change the check's outcome |
| `Commands.CommandName` | types.go:3-7 | the agent answers `DESIGNER`; every other record answers with its embedded launch settings |
| `Commands.Check` | types.go:3-7 | create and agent records use their own rule, with at most one failure; every other record answers with its embedded launch settings |
| `Commands.Values` | types.go:3-7 | the create, add-user, copy-users and report records relocate the marshalled vector (repository.go:126-132, repositoryUsers.go:36-42 and 94-100, repositoryService.go:50-56). The other records return it unchanged (repositoryCfg.go, repositoryCache.go, agent.go:68-72). No token is lost, and a relocating record ends with its `-Extension` token |
| `Commands.CreateAllExpectedUnreachable` | repository_test.go:124-149 | no marshalled vector relocates to the vector this test expects |
| `Commands.CreateAllRelocatedIsValues` | repository_test.go:138-148 | if `Marshal` renders the test's tokens in the listed order, `Values` yields them with `-Extension temp_ext` last |

## Findings

| source | as written | input that shows it | evidently intended | confidence | as-written member | corrected member |
|---|---|---|---|---|---|---|
| repository_test.go:138-148 | the table test for the create command expects `-Extension temp_ext` fourth, before `/ConfigurationRepositoryCreate` | `Repository{"./repo", "admin", "pws", "temp_ext"}` with both support rules `ObjectNotSupported` and `NoBind` | `Values` (repository.go:126-132) runs `fixExtensionIndex` (repository.go:149-169), which puts `-Extension temp_ext` last | not executed; proved that no marshalled vector relocates to the expected one | `Commands.CreateAllExpectedUnreachable` | `Commands.CreateAllRelocatedIsValues` |

## Left out

- `marshaler.Marshal` (a reflection-driven foreign library) is not modelled. `Commands.Values` takes it as the parameter `marshal`, and nothing is assumed of it. Its error result, which the source discards, is not represented. The `default=Администратор` tag of `Repository.User` is therefore not modelled either.
- `Repository.Values` (repository.go:53-58) is `Marshal` of the record. It is pinned only by its two table-test vectors (`Repo.MatchesRepositoryValuesTests`).
- `Designer` and `NewDesigner()` are not part of this model. Constructors receive the `NewDesigner()` value as the parameter `designer`. The `Command` and `Check` that the repository records inherit from `Designer` are the parameters `designerCommand` and `designerCheck`.
- The `command` interface is a sum type with dispatching functions, not an interface type. Each Go record satisfies the interface separately; the sum type only gathers them.
- `waitAgent` and `AgentModeOptions.Wait` (agent.go:95-130) are not modelled. They are goroutines, channels, a ticker, a context timeout and `net.Dial`. `Wait` also calls `strconv.FormatInt` with base 64, which panics.
- `net.SplitHostPort` and `strconv.ParseInt` are parameters of `WithListenAddress`. The conversion `int(port)` is taken as lossless, as it is on 64-bit platforms; on 32-bit platforms Go would truncate.
- `errors.Check.New`, `WithContext` and `go-multierror` are a sequence of `CheckError` values (message and one context entry). `ErrorOrNil()` returning nil is the empty sequence.
- Go slice capacity is not modelled. `FixExtensionIndex` works on an array of exactly the vector's length; the Go code writes within that same length because the capacity is never exceeded.
