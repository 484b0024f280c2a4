# AUK engine model

A Dafny 4.11 model of the headless engine of AUK, an API client written in Go, with proofs of what its
parts promise. Nothing here runs the original; the statements are about the model, which follows the code
branch by branch. `dafny verify dfyconfig.toml` checks everything.

## What is modelled

| file | part of the system |
|---|---|
| `Common.dfy`, `Substrings.dfy`, `SortedNames.dfy`, `SidebarOrder.dfy` | table rows, Go's string order, substring replacement, sorted key lists, the (order key, name, id) order |
| `TokenStore.dfy`, `OAuthFlow.dfy`, `OAuthOutcomes.dfy`, `ClientCredentials.dfy` | the token cache over memory and keychain; N concurrent sends of the authorization-code grant as program counters over one per-key lock, with the provider's own books beside them; the same for the client-credentials grant |
| `Chaining.dfy` | request chaining: automatic sends with a visited set, a depth cap and a response cache |
| `Redaction.dfy`, `SecretOverlaps.dfy`, `ScriptEdits.dfy`, `EditOrder.dfy` | the redaction of secret values; the redacted snapshot a pre-request script edits, and the merge of its edits onto the real request, in any order of the edits |
| `Variables.dfy`, `ScriptWrites.dfy`, `VariableStores.dfy` | layered variables, the screening and landing of script writes, the run layer; the last file holds the classes that keep this state |
| `ShellWords.dfy`, `ShellGrammar.dfy`, `Curl.dfy`, `CurlFlags.dfy` | shell quoting and tokenizing, copy as cURL and paste; what any command line and any flag is read as |
| `PlanWalk.dfy`, `PlanPaths.dfy` | the folder tree and the walk that lists a plan; the order and the paths of its entries |
| `PercentCodec.dfy`, `PathParams.dfy`, `PathShapes.dfy`, `SigV4.dfy` | percent-encoding, path parameters, the canonical path and query of a SigV4 signature |
| `FolderTree.dfy` | the store's folder tree and the cascading folder delete |
| `Stream.dfy` | the bounded frame buffer and its cursor |
| `Verdicts.dfy`, `PlanRuns.dfy`, `JUnit.dfy`, `RunReports.dfy` | verdicts and checks, the iteration loop with bail, the JUnit document and the exit status; results and document entry by entry |
| `Trial.dfy` | the trial clock over two stores |
| `License.dfy` | the signed bytes of a licence |
| `Perf.dfy`, `PerfBuckets.dfy` | the one-second buckets of a load test |
| `MockRoutes.dfy` | route matching of the mock server |
| `McpSessions.dfy`, `McpClosings.dfy`, `SendSlots.dfy` | the per-connection locks of MCP debugging sessions, and the cancel slot of a send |

Go maps are Dafny maps, and a loop over one takes its keys in an arbitrary order. Files, keychain, clock,
transports, the script engine and k6 enter as parameters: what they answer, when they refuse. Objects the
source updates are classes; each method is proved equal to a function of the old state, and the theorems are
about those functions. Protocols are state machines whose runs are any sequence of enabled steps.

## Where the code does something else than its promise

Each of these is a lemma that names the input or run, next to the condition under which the promise holds.

- A refresh whose answer is lost is presented again (`OAuthFlow.NeverReplaysIff`, `OAuthFlow.LostReplyIsReplayed`).
- The keychain's refusals are ignored: a dropped sign-in can come back (`TokenStore.DropResurfacesIff`), and with it a
  refresh token that was exchanged before (`OAuthFlow.RefusedDeleteIsReplayed`).
- Template resolution goes on after its first error, so a request whose send fails can be sent twice in one run
  (`Chaining.FailedReferenceIsResent`).
- A secret value with a bracket can be completed by a placeholder (`SecretOverlaps.SingleSecretCompleteIff`,
  `Redaction.BracketedSecretReappears`).
- A secret inside a header key can move the slot a script's edit addresses (`ScriptEdits.MisdirectedEdit`).
- An error value with an empty text fails the run but leaves a green JUnit document (`JUnit.SilentErrorDisagrees`). The
  engine returns none after scoring a response (`JUnit.EngineRunsAgree`); only another executor behind the runner's
  `execFunc` can.
- A pasted `--flag=value` is skipped as an unknown flag, with a URL after it that has no scheme; `takeValue`, which
  describes that form, is only reached for flags written alone (`CurlFlags.EqualsFormIsUnknown`,
  `CurlFlags.EqualsFormTakesUrl`).
- Setting two header names that differ in letter case only leaves it to the order of a map which of them is sent
  (`EditOrder.OrderIsHiddenIff`).
- A workspace plan lists requests twice when some root folder is under another, as beside one with an empty id
  (`PlanWalk.WorkspacePlanIsExactIff`, `PlanWalk.EmptyIdPlansTwice`).
- Two licences with fields of 2^32 bytes can have the same signed bytes (`License.TellsApartIff`).
- Failed requests of a second without any `http_reqs` point are not reported (`Perf.LoneFailureIsDropped`).
- A trial started at the zero time starts again (`Trial.StartIsFinalIff`, `Trial.ZeroClockStartsAgain`).
- A frame pushed after the final drain is lost (`Stream.LatePushIsLost`).
- Shutdown sweeps the MCP session map without taking the connection locks, so a connect in progress survives it
  (`McpSessions.ShutdownIsCompleteIff`, `McpSessions.ShutdownMissesADial`).
- Deleting a folder that is its own ancestor recurses without bound (`FolderTree.EndlessIffOnCycle`), and reading
  variables below such a folder does not end (`Variables.ChainEndsIff`).

## Model

| member | source | states |
|---|---|---|
| `OAuthFlow.SingleFlight` | internal/auth/auth_oauth2.go:92-161 | In every interleaving of any number of senders, two senders of one sign-in are never in the refresh section together |
| `OAuthFlow.PresentsTheCachedGrant` | internal/auth/auth_oauth2.go:108-146 | Whenever a refresh token is presented it is the one in the cache, whatever the keychain refuses |
| `OAuthFlow.ReplaysOnlyAfterLostReplies` | internal/auth/auth_oauth2.go:108-115 | A refresh token that is presented was exchanged before if and only if the answer to that exchange was lost on the way back, when the keychain takes every delete or takes every write of the run |
| `OAuthFlow.NeverReplaysASpentGrant` | internal/auth/auth_oauth2.go:108-115 | With every provider answer delivered as well, a refresh token already exchanged and rotated is never presented again |
| `OAuthFlow.NeverReplaysIff` | internal/auth/auth_oauth2.go:108-147 | Over every start and every run that losing answers, refusing writes and refusing deletes allow: no exchanged refresh token is ever presented again if and only if no answer is lost and the keychain does not refuse both writes and deletes |
| `OAuthFlow.LostReplyIsReplayed` | internal/auth/auth_oauth2.go:134-147 | The first family that fails: after a lost answer, the next sender replays the grant; run for every sign-in, token and clock |
| `OAuthFlow.RefusedDeleteIsReplayed` | internal/auth/oauth2_tokens.go:147-176 | The second: a keychain that refuses first a write and then a delete gives an exchanged grant back, and the next sender presents it; run for every sign-in, pair of tokens and clock |
| `OAuthFlow.SignInDroppedOnlyForCause` | internal/auth/auth_oauth2.go:125-146 | A stored sign-in disappears only in a step of a sender of that sign-in which the provider refused with one of four error codes of section 5.2 of RFC 6749, or which re-read an unusable token without a refresh token |
| `OAuthFlow.DiscardHasCause` | internal/auth/auth_oauth2.go:168-178 | A sender about to drop the sign-in was refused, or re-read it expired with nothing to refresh it, earlier in the same run |
| `OAuthFlow.LossesComeFromLostReplies` | internal/auth/auth_oauth2.go:134-147 | The set of exchanges whose answer was lost grows in lost answers only |
| `OAuthFlow.RunKeepsInv` | internal/auth/auth_oauth2.go:92-161 | Every step of every sender keeps lock table, phases and cache consistent: a sender past the lock holds it, and the token it works on is the cached one |
| `OAuthOutcomes.OutcomeHasCause` | internal/auth/auth_oauth2.go:92-161 | In every run, what a sender returns or is bound to return was given to it by a step of its own: a bearer is the access token of a cached token it read that does not expire within 30 seconds of the clock reading, or of the answer of the provider to it; each error has its own cause, named by error code, missing token or missing answer |
| `OAuthOutcomes.GivenIsBound` | internal/auth/auth_oauth2.go:92-147 | The other way round: a step that gives an outcome settles it, and a first read that finds a fresh token or none returns at once, without the lock |
| `OAuthOutcomes.NothingIsRuledOut` | internal/auth/auth_oauth2.go:92-178 | The runs leave nothing out: in each phase every clock reading, every answer of keychain, network and provider is a legal step |
| `OAuthOutcomes.RefreshHasCause` | internal/auth/auth_oauth2.go:119-133 | In every run a sender refreshes only a token it has re-read under the lock, found about to expire, and that has a refresh token |
| `OAuthOutcomes.StoredIsTheAnswer` | internal/auth/auth_oauth2.go:134-147 | In every run what a sender stores is what the provider answered to it; without a new refresh token the one presented is kept |
| `OAuthOutcomes.RefreshedIsCached` | internal/auth/auth_oauth2.go:119-147 | In every run the token being refreshed is the one cached, until the answer is stored |
| `OAuthOutcomes.BooksAreTheRun` | internal/auth/auth_oauth2.go:134-147 | The sets of exchanged grants and of lost answers the theorems speak of are exactly those of the steps of the run |
| `OAuthOutcomes.NothingExchangedIsPresented` | internal/auth/auth_oauth2.go:108-147 | The replay theorem on the steps alone: no step that presents a refresh token comes after an answer that exchanged it |
| `OAuthFlow.RunKeepsBooks` | internal/auth/auth_oauth2.go:92-161 | And the cache with the books of the provider: outside a commit what is read, and what the keychain holds if it may refuse deletes, is not an exchanged grant, lost answers aside |
| `OAuthFlow.RunsAreBounded` | internal/auth/auth_oauth2.go:92-161 | n senders take at most 8n steps, whatever the interleaving |
| `OAuthFlow.NoDeadlock` | internal/auth/auth_oauth2.go:114-115 | While a sender has not returned, some sender can move |
| `ClientCredentials.OneMintServesAll` | internal/auth/auth_oauth2.go:54-87 | No stampede: once a token is minted, no sender of its key mints another while clock readings find it usable, in any interleaving of any number of senders |
| `ClientCredentials.OutcomeHasCause` | internal/auth/auth_oauth2.go:54-87 | In every run a sender returns the access token of a cached token fresh at its reading or of the one it minted, and nothing only after a mint of its own failed |
| `ClientCredentials.GivenIsBound` | internal/auth/auth_oauth2.go:54-87 | The other way round: such a step settles it, and a first read that finds a fresh token returns at once, without the lock |
| `ClientCredentials.KeychainIsUntouched` | internal/auth/auth_oauth2.go:82-85 | A machine-minted token is never written to the keychain |
| `ClientCredentials.NoDeadlock` | internal/auth/auth_oauth2.go:65-70 | While a sender has not returned, some sender can move |
| `TokenStore.FillIsInvisible` | internal/auth/oauth2_tokens.go:123-143 | Filling memory from the keychain on a read never changes what any later read of any key gives |
| `TokenStore.WritesAreLocal` | internal/auth/oauth2_tokens.go:147-176 | A put or drop, accepted by the keychain or not, changes the reading of its own key only, and after a put that key reads as the token put |
| `TokenStore.DropResurfacesIff` | internal/auth/oauth2_tokens.go:169-176 | After a drop the key is read again if and only if the keychain held a usable copy and refused the delete, and then as that copy |
| `TokenStore.TokenCache.Get` | internal/auth/oauth2_tokens.go:123-143 | The cached or stored token, the cache updated as a fill; an unreadable keychain reads as empty |
| `TokenStore.TokenCache.Put` | internal/auth/oauth2_tokens.go:147-166 | Memory always takes the token, the keychain when it is to persist and accepts it |
| `TokenStore.TokenCache.Drop` | internal/auth/oauth2_tokens.go:169-176 | Memory forgets the key and the keychain does when it accepts the delete, whose error is ignored; the key stays readable exactly when it does not, and every other key is as before |
| `Chaining.RunKeepsWf` | internal/core/chaining.go:47-96 | From any state of a run and any chain of requests in flight: all sends stay well formed, only sends are added, and none is for a request already on the chain |
| `Chaining.ChainsAreShortAndDistinct` | internal/core/chaining.go:31-67 | In every run over every request graph and cache, each send happens inside a chain whose set of distinct ids has depth + 1 members and at most nine |
| `Chaining.ReferencesAreSavedFirst` | internal/core/chaining.go:76-96 | Every response a sent request references was cached at the start or saved by an earlier send of the run |
| `Chaining.NothingAvailableIsResent` | internal/core/chaining.go:76-96 | A cached response is refetched only for the top request, and a request whose response was saved is never sent again |
| `Chaining.AtMostOnceIffNothingFails` | internal/templating/templating.go:181-233 | For a transport, each request is sent at most once in every run over every graph, cache and refusal by auth, script or policy if and only if the transport never fails: resolution goes on after its first error |
| `Chaining.FailedReferenceIsResent` | internal/templating/templating.go:181-233 | A request referenced twice whose send fails is sent twice in one run |
| `Chaining.DoomedNeverSend` | internal/core/chaining.go:47-96 | For any set of uncached ids each of which names no request, or a request with a reference to nothing or into the set: wherever a run starts, none of them, and no request with such a reference, is ever sent, and starting at one, cached or not, is an error |
| `Chaining.CyclesNeverSend` | internal/core/chaining.go:47-67 | In particular for a cycle of uncached requests and any chain leading into it: no member of either is sent, and starting there, or at a request that references one of them, is an error |
| `Chaining.ShallowAcyclicRunSucceeds` | internal/core/engine.go:457-526 | Healthy references without a cycle, at most nine levels deep, are sent without an error |
| `Chaining.LineSucceedsIffNine` | internal/core/chaining.go:31-67 | A line of distinct uncached requests runs if and only if it has at most nine members |
| `Chaining.Engine.RunRequest` | internal/core/engine.go:457-526 | The store-updating engine gives the result, cache, send log and clock of the recursive definition; a response it returns answers the last send of the log, which is for the request itself, and is cached |
| `Chaining.Engine.ResolveRefs` | internal/templating/templating.go:181-233 | The loop resolves every reference, past failures too, and gives the first failure of the definition, which is that of the first reference in order that fails (Chaining.FirstFailureIsReported) |
| `Chaining.Engine.Lookup` | internal/core/chaining.go:76-96 | A reference to a cached response gives what its path extracts from that response and changes nothing; a value of one that was sent for is extracted from the answer of the last send, which was for that request |
| `Chaining.FirstFailureIsReported` | internal/templating/templating.go:181-233 | Of all references of a list, resolved in turn, the failure reported is that of the first that fails, and none is if none fails |
| `Chaining.CachedReferenceIs` | internal/core/chaining.go:85-96 | For a cached target: the reference resolves to v if and only if its path extracts v from the cached response, and the state is unchanged |
| `Chaining.SentReferenceIs` | internal/core/chaining.go:76-96 | For an uncached target: a value comes out of the response that answers the last send, which was for the target and is cached now |
| `Chaining.CacheHoldsAnswers` | internal/core/engine.go:457-526 | After every run each cached response is the one cached at the start, untouched, or the answer to a send of the run for that request |
| `Chaining.OnlyAllowedAreSent` | internal/core/engine.go:668-681 | Every send of every run was allowed by the policy at the moment it was sent |
| `Chaining.RunErrorIsTrue` | internal/core/chaining.go:31-67 | Every error of a run is true of a request reached from the first along references: a cycle closes there, or it is more than nine deep, or it is unknown, or not allowed, or a send of it fails, or a reference of it has no such name or no such value |
| `Redaction.RedactionCompleteIff` | internal/core/engine.go:870-878 | For bracket-free secrets, redaction leaves no secret value in any string at all if and only if it leaves none in each secret itself |
| `Redaction.PlainSecretsNeverLeak` | internal/core/engine.go:870-878 | For bracket-free secrets with no secret inside a placeholder, no string keeps or regains a secret value, earlier replacements included |
| `Redaction.BracketedSecretReappears` | internal/core/engine.go:870-878 | Why brackets are excluded: a concrete pair of secrets and a text in which the bracket of a later placeholder completes an earlier secret |
| `SecretOverlaps.SingleSecretCompleteIff` | internal/core/engine.go:870-878 | For one secret of any bytes, redaction leaves it in no string if and only if the value does not overlap its placeholder: the placeholder holds it, ends in a beginning of it, or begins as it goes on |
| `SecretOverlaps.ApartSecretsNeverLeak` | internal/core/engine.go:870-878 | For secrets of any bytes, replaced in any order: when no value can hold an edge of its own or a later placeholder, redaction leaves no secret in any string |
| `Redaction.RedactUntouched` | internal/core/engine.go:870-878 | A text without secrets is left as it is |
| `Redaction.SecretShowsItsName` | internal/core/engine.go:870-878 | Between two characters that occur in no secret, a secret value is shown as its own variable name in brackets when no secret is part of that, and what stands around it is redacted for itself |
| `Redaction.OrderIsUnique` | internal/core/engine.go:921-933 | The replacement order is determined by the secret map, so the iteration order of the map cannot show |
| `Redaction.ValuesLongestFirst` | internal/core/engine.go:921-933 | The loop lists exactly the secret values, longer ones first, equal lengths in text order |
| `Redaction.RedactSecretValues` | internal/core/engine.go:870-878 | The replacement loop computes the redaction the theorems are about |
| `Substrings.ReplaceSplit` | internal/core/engine.go:870-878 | Replacing a text without a character c works on the two sides of every c separately |
| `ScriptEdits.EmptyScriptIsIdentity` | internal/core/engine.go:996-1025 | A script that sets nothing leaves the request exactly as it was, secrets included |
| `ScriptEdits.PartsAreMerged` | internal/core/engine.go:996-1025 | Whatever a script makes of the request it was shown: each part left as shown goes out as it really is, each part changed goes out as changed, and the credentials are the real ones |
| `ScriptEdits.FoldIff` | internal/scripting/scripting.go:332-341 | Two header names are one if and only if they differ in the case of letters only |
| `ScriptEdits.TransparentIffUnambiguous` | internal/core/engine.go:996-1025 | When every header name addresses the same slot before and after redaction, merging the edited redacted snapshot equals editing the real request if and only if no edited slot ends at its redacted baseline value |
| `ScriptEdits.AlwaysTransparentIffSlotsAgree` | internal/scripting/scripting.go:332-341 | For a request: all unambiguous edit lists survive redaction if and only if every header name addresses the same slot before and after redaction |
| `ScriptEdits.MisdirectedEdit` | internal/scripting/scripting.go:332-341 | A name whose slot redaction moves has an edit that lands on the wrong header |
| `ScriptEdits.HeaderEditsSurviveRedaction` | internal/core/engine.go:947-1025 | With no secret inside a header key, unambiguous header edits survive redaction |
| `ScriptEdits.SnapshotsHideSecretsIff` | internal/core/engine.go:947-961 | For any secrets: no request ever shows a script a secret value if and only if redaction leaves none in any string |
| `ScriptEdits.SnapshotHidesSecrets` | internal/core/engine.go:947-961 | So no part of the request a script is shown contains a secret value when the secrets are bracket-free and each redacts clean, or when they are apart from the placeholders |
| `EditOrder.OrderIsHiddenIff` | internal/scripting/scripting.go:176-179 | For the map of headers a script sets: over every header list, any two walks of the map edit the listed headers alike and append the same others if and only if no two names fold together |
| `EditOrder.SentUpToOrder` | internal/scripting/scripting.go:176-179 | With names that fold apart, the requests sent after two walks differ in the order of appended headers at most |
| `ScriptEdits.UpsertHeader` | internal/scripting/scripting.go:332-341 | The in-place upsert: the first matching header takes the value and keeps its key, a new name is appended |
| `ScriptEdits.CloneHeaders` | internal/core/engine.go:967-977 | The baseline copy is a new array, so editing the snapshot cannot reach it |
| `ScriptEdits.ApplyInPlace` | internal/scripting/scripting.go:176-179 | The edit loop on the snapshot array gives the edit list applied in order |
| `ScriptEdits.MergeScriptHeaders` | internal/core/engine.go:996-1025 | The merge loop gives the merged headers and writes none of its three inputs |
| `ScriptEdits.RunPreRequest` | internal/core/engine.go:620-666 | The whole pass, with its in-place edits of a shared header slice and its separate baseline, sends the request of the definition, URL, body and auth included, and leaves the real slice unchanged |
| `ScriptEdits.MergeInto` | internal/core/engine.go:996-1025 | The merge of URL, body text, headers and auth, branch by branch, is that of the definition |
| `Variables.ReadsByLayer` | internal/core/engine.go:740-774 | A name reads as the script or data value of the run layer, an unset there hiding the data value; else the session value; else the last enabled entry in the nearest folder upwards that has one; else the last enabled entry of the environment, a secret-backed one by its keychain value; for every name, secret or not |
| `Variables.NearestFolderDecides` | internal/core/engine.go:701-719 | Among the folder and its parents, one link after the other, the nearest with an enabled entry of the name decides, by the last such entry; none has one if and only if the folders give nothing |
| `Variables.LookupGives` | internal/templating/templating.go:150-233 | A lookup gives the value of the last enabled entry of the name, and none if and only if there is none |
| `Variables.AncestorInWorkspace` | internal/core/engine.go:701-709 | Folders of other workspaces end the way up |
| `Variables.ChainEndsIff` | internal/core/engine.go:701-709 | The loop up the folder links ends if and only if no folder it passes comes again further up |
| `Variables.ReadYourWritesIff` | internal/core/engine.go:1181-1305 | A safe script write, wherever it lands, is what the next resolution reads, if and only if it does not land in an environment that lists the name twice with an enabled later entry overruling it |
| `Variables.ReadYourWrites` | internal/core/engine.go:1181-1305 | With each name listed at most once, every safe write is read back, folder shadowing included |
| `Variables.OthersKeepEntries` | internal/core/engine.go:1269-1305 | A name outside the delta keeps its entries, in order, in every stored environment |
| `Variables.OthersKeepSession` | internal/core/engine.go:1181-1261 | A name outside the delta keeps its session value, and other workspaces' sessions are not touched |
| `Variables.SecretsStayInEnvironments` | internal/core/engine.go:1083-1103 | No script adds, removes or changes a protected name in any stored environment or the keychain |
| `Variables.SecretsStayOutOfSession` | internal/core/engine.go:1181-1261 | Nor in any session |
| `Variables.SecretsStayOutOfLayer` | internal/core/engine.go:1181-1261 | Nor in the run layer |
| `ScriptWrites.SafeIff` | internal/core/engine.go:1181-1209 | A write passes if and only if its name is no secret of an environment of the workspace or of the one in use, and its value contains no non-empty value of an enabled secret entry of the environment in use |
| `ScriptWrites.NoSecretIsTold` | internal/core/engine.go:1181-1261 | A write that names or contains a secret changes nothing: no entry of its name in any stored environment, no session value of it in any workspace, no reading of it in the layer, no keychain entry, no list of secret names |
| `ScriptWrites.StoredSecretIsNotTold` | internal/core/engine.go:1203-1209 | The same from the store: a write that contains what an enabled secret of the chosen environment is worth, by the keychain or else as stored, changes nothing under its name |
| `ScriptWrites.UnsetIsRead` | internal/core/engine.go:1218-1261 | What a name reads as after an unset: it is gone from the layer, or without one from the session and a writable environment, and reads as what lies below |
| `ScriptWrites.WriteLands` | internal/core/engine.go:1218-1261 | A write that passes lands in the run layer and touches nothing stored; without a layer it becomes the first stored entry of its name in the chosen environment if that can be written, beside the session only where a folder would hide it; and else it goes to the session and the store stays as it was |
| `Variables.OverlayReplays` | internal/core/engine.go:374-413 | Any operations on any layer replay on what the layer contributed before |
| `Variables.OverlayIsRowWithOps` | internal/core/engine.go:359-413 | Since the last reset the overlay is the data row with the script operations applied in order |
| `Variables.RunLeavesWorkspaceAlone` | internal/runner/runner.go:376-416 | A run of any iterations leaves stored environments, keychain, folders and sessions unchanged |
| `Variables.IterationsAreIndependent` | internal/runner/runner.go:376-416 | What an iteration starts from depends on its row only, not on what earlier iterations ran or wrote |
| `Variables.ResolvedLookup` | internal/storage/filestore.go:529-588 | Reading an environment gives the last enabled entry of the name, with the keychain value when the name is a secret of it that the keychain holds |
| `SortedNames.SortKeys` | internal/core/engine.go:1105-1112 | The sorted key list of the map |
| `SortedNames.ListingIsUnique` | internal/core/engine.go:1105-1112 | There is one sorted listing of a key set |
| `VariableStores.DeltaReplays` | internal/scripting/scripting.go:251-260 | Applying the recorded writes and unsets to what the script started from replays its calls in order |
| `VariableStores.ScriptWritesAreRead` | internal/core/engine.go:1181-1305 | From the calls a script makes to the next resolution: a name left set, safely, is read back with its last value |
| `VariableStores.Sandbox.VarSet` | internal/scripting/scripting.go:251-260 | A set is recorded and withdraws an earlier unset of the name |
| `VariableStores.Sandbox.VarUnset` | internal/scripting/scripting.go:251-260 | An unset is recorded once and withdraws an earlier write of the name |
| `VariableStores.SessionVars.Put` | internal/core/engine.go:284-294 | One workspace's session takes the value, every other session is unchanged |
| `VariableStores.SessionVars.Forget` | internal/core/engine.go:299-309 | The names are gone from one workspace's session, every other session is unchanged |
| `VariableStores.RunScopedVars.Reset` | internal/core/engine.go:359-371 | The layer holds the row and none of the earlier script operations |
| `VariableStores.RunScopedVars.PutScript` | internal/core/engine.go:374-379 | A script write, as the layer definition has it |
| `VariableStores.RunScopedVars.DropScript` | internal/core/engine.go:385-390 | A script unset, as the layer definition has it |
| `VariableStores.RunScopedVars.Rows` | internal/core/engine.go:395-413 | The overlay rows, sorted by name, one for each name of the overlay |
| `VariableStores.Engine.ApplyVariableWrites` | internal/core/engine.go:1181-1261 | Screening and placing through the three stores gives the world of the definition, the one the theorems on reading one's writes, unsets and secret values are about |
| `VariableStores.Engine.Screen` | internal/core/engine.go:1181-1216 | Exactly the writes that neither name nor contain a secret (ScriptWrites.SafeIff) and the unsets of names that are none pass |
| `VariableStores.Engine.PersistVariables` | internal/core/engine.go:1269-1305 | Writes in name order, then unsets, on the stored environment; false and no change when it is unknown or not writable |
| `VariableStores.Engine.SettleSession` | internal/core/engine.go:1230-1261 | Beside a persisted delta the session keeps only the writes a folder shadows and forgets the other names |
| `VariableStores.Engine.FillSession` | internal/core/engine.go:1230-1261 | Without an environment to write, the session takes the delta |
| `VariableStores.Engine.FillLayer` | internal/core/engine.go:1220-1229 | With a run layer, the layer alone takes the delta |
| `ShellWords.TokenizeInvertsQuoting` | internal/importer/curl.go:326-428 | Tokenizing the shell-quoted words joined by spaces gives the words back, for every list of every string |
| `ShellWords.TokenizeRunes` | internal/importer/curl.go:357-428 | The one-pass tokenizer with its quote state and builder computes the recursive scanner, errors included |
| `ShellGrammar.UnquotedIff` | internal/importer/curl.go:326-348 | A word is written without quotes if and only if it is not empty and has only ASCII letters, digits and nine harmless signs |
| `ShellGrammar.WordsAreRead` | internal/importer/curl.go:357-428 | Words written in any mixture of bare, backslashed, single-quoted and double-quoted parts, with the five escapes in double quotes, set apart by blanks and line continuations, are read as the texts they stand for |
| `ShellGrammar.OpenQuotesFail` | internal/importer/curl.go:387-412 | After any words, a single or double quote that is not closed is its error |
| `Curl.ToCurlIsJoin` | internal/importer/curl.go:214-266 | The text ToCurl builds piece by piece is its word list, quoted and joined |
| `Curl.CommandIsCollected` | internal/importer/curl.go:25-205 | Parsing what ToCurl wrote collects exactly its method, URL, headers and body |
| `Curl.HeaderSurvivesIff` | internal/importer/curl.go:282-288 | A header survives the command line if and only if its key has no colon and neither side has outer white space |
| `Curl.HeadersSurviveIff` | internal/importer/curl.go:282-288 | The enabled headers come back in order, and unchanged if and only if each of them survives |
| `Curl.CurlRoundTripIff` | internal/importer/curl.go:25-266 | Copying as cURL and pasting gives back method, URL with the enabled parameters as its query, headers and body if and only if the URL can stand as a bare argument, every enabled header survives, and it is not a GET with a body |
| `Curl.UnreadableUrl` | internal/importer/curl.go:25-205 | No command at all parses to an empty URL or to one that begins like a flag, "-?" and "-&" aside |
| `Curl.OddUrlFails` | internal/importer/curl.go:25-205 | A URL that begins with "-?" or "-&" is written as a word that is read as an unknown flag, and pasting fails for want of a URL |
| `Curl.RenderCurl` | internal/importer/curl.go:214-266 | The builder writes the command of the definition |
| `Curl.ParseCommand` | internal/importer/curl.go:25-205 | The index-driven argument loop computes the recursive definition, errors included; what that gives for each command is CurlFlags.CommandSays |
| `CurlFlags.CommandSays` | internal/importer/curl.go:25-205 | However its words are quoted, a command reads as its parts say: the last method given, in capitals, else GET with -G or without data, else POST; the first bare word as URL, with the data as its query under -G; every header, agent and referer in order, the cookies in one header at the end; user and password cut at the first colon; the data joined with "&" as binary, JSON or form body; no URL is an error |
| `CurlFlags.EveryCommandHasParts` | internal/importer/curl.go:47-153 | Nothing is left out: all words are such parts, or such parts and a flag that lacks its value |
| `CurlFlags.MissingValueFails` | internal/importer/curl.go:47-125 | The latter is the error that names the flag |
| `CurlFlags.UserIsRead` | internal/importer/curl.go:183-189 | For every user without a colon, password and URL, "-u user:password" gives that basic auth |
| `CurlFlags.CookiesAreRead` | internal/importer/curl.go:176-181 | Any list of "-b" values arrives as one Cookie header, joined with "; " |
| `CurlFlags.DataAreRead` | internal/importer/curl.go:155-202 | Any list of "-d" values makes a POST with the values joined as its body |
| `CurlFlags.GetTakesData` | internal/importer/curl.go:155-202 | With -G the same values make a GET with a query and no body |
| `CurlFlags.AgentAndRefererAreRead` | internal/importer/curl.go:115-129 | "-A" and "-e" arrive as User-Agent and Referer headers |
| `CurlFlags.HeaderReads` | internal/importer/curl.go:282-288 | A header is cut at its first colon and loses the white space around name and value |
| `CurlFlags.HeaderNeedsColon` | internal/importer/curl.go:282-288 | A header is dropped if and only if it has no colon |
| `CurlFlags.FormReads` | internal/importer/curl.go:299-310 | Form fields joined with "&" are read back in order, empty pieces aside |
| `CurlFlags.QueryReads` | internal/importer/curl.go:232-310 | The query ToCurl writes for the parameters reads back as the enabled ones, keys without "=" or "&" and values without "&" |
| `CurlFlags.EqualsFormIsUnknown` | internal/importer/curl.go:268-280 | A word "--flag=value" is an unknown flag, whatever the flag |
| `CurlFlags.EqualsFormTakesUrl` | internal/importer/curl.go:139-146 | and it takes a URL without a scheme with it, so that the command fails |
| `PlanWalk.PlanIsPreorder` | internal/runner/target.go:198-219 | Even with cyclic or dangling parents, the walk that marks a shared seen set lists one finite tree, the target and what is below it, in pre-order |
| `PlanWalk.FolderPlanIsExact` | internal/runner/target.go:194-219 | A folder plan holds each request filed under the target as often as the store lists it, and no other request |
| `PlanWalk.WorkspacePlanIs` | internal/runner/target.go:180-189 | For every listing with distinct folder ids: a workspace plan holds a loose request as often as it is listed, and any other one as often as that for each root folder it is under |
| `PlanWalk.WorkspacePlanIsExactIff` | internal/runner/target.go:180-189 | For given folders, every list of requests is planned exactly as often as listed, and only loose and under root folders, if and only if no root folder is under another |
| `PlanWalk.WorkspacePlanIsExact` | internal/runner/target.go:180-189 | So it is when no folder has the empty id, under which root folders are filed |
| `PlanWalk.EmptyIdPlansTwice` | internal/runner/target.go:145-176 | Beside a root folder with the empty id, a request in another root folder is planned twice |
| `PlanWalk.ListedRequestOnce` | internal/runner/target.go:145-176 | With distinct ids a listed request is planned exactly once |
| `PlanPaths.PlanPathsAreTrue` | internal/runner/target.go:198-219 | Every entry of a folder plan names the folders from the target down to that of its request, link by link |
| `PlanPaths.PlanIsInTurn` | internal/runner/target.go:198-284 | In every folder plan the requests of one folder come by order key, then name, then id |
| `PlanPaths.SubfoldersAreListed` | internal/runner/target.go:262-272 | So do the subfolders of a folder |
| `PlanPaths.LooseComeFirst` | internal/runner/target.go:180-189 | A workspace plan begins with the loose requests, without a path, by order key, then name, then id |
| `PlanPaths.RootPlansFollow` | internal/runner/target.go:180-189 | Then come the plans of the root folders, one after the other in their order |
| `PlanPaths.LessIff` | internal/runner/target.go:262-284 | One string is smaller than another at the first difference, or as a proper prefix |
| `SidebarOrder.SortBySorts` | internal/runner/target.go:262-284 | The sort is a permutation ordered by order key, then name, then id |
| `SidebarOrder.SortInPlace` | internal/runner/target.go:262-284 | The array is left in that order |
| `PlanWalk.Tree.constructor` | internal/runner/target.go:145-176 | The maps filled and sorted by the loops are the sorted children, requests and loose requests of the listing |
| `PlanWalk.Tree.WalkFrom` | internal/runner/target.go:198-219 | The recursive method on the shared set gives the walk and the set the definition gives |
| `PlanWalk.Tree.WalkKids` | internal/runner/target.go:198-219 | The loop over the children, likewise |
| `PercentCodec.EscapeRoundTrip` | internal/core/pathparams.go:138-154 | Every byte string is read back from its percent-encoding; sections 2.1 and 2.3 of RFC 3986 |
| `PercentCodec.EscapedBytes` | internal/auth/auth_sigv4.go:176-189 | An encoding holds unreserved bytes and percent signs only |
| `PercentCodec.EscapeByteIs` | internal/auth/auth_sigv4.go:176-189 | A letter, digit or one of - . _ ~ stands for itself, any other byte is a percent sign and two digits in capitals; sections 2.1 and 2.3 of RFC 3986 |
| `PercentCodec.EscapeBytes` | internal/auth/auth_sigv4.go:176-189 | The byte loop both encoders run writes that encoding |
| `PathParams.FillingIsLocal` | internal/core/pathparams.go:37-104 | For every HTTP or GraphQL URL: what precedes the path and what follows "?" is kept, the number of segments is kept, a filled segment percent-decodes to its value and every other one is untouched |
| `PathParams.FillingIsIdempotent` | internal/core/pathparams.go:37-104 | Filling twice is filling once, for every protocol, URL and parameter list |
| `PathParams.SamePathStart` | internal/core/pathparams.go:67-84 | The path of the filled URL begins where the path of the original begins: no value can make a new authority |
| `PathParams.FillingAddsNoScheme` | internal/core/pathparams.go:67-84 | Filling never makes a "://" that was not there |
| `PathShapes.AbsolutePathStart` | internal/core/pathparams.go:64-69 | After the first "://" the path begins at the first slash after the host, and without one there is none |
| `PathShapes.HostPathStart` | internal/core/pathparams.go:70-75 | So it does after a host that follows two slashes, when there is no "://" |
| `PathShapes.RelativePathStart` | internal/core/pathparams.go:76-80 | and anything else has its path from its first slash on |
| `PathShapes.PlaceholderIff` | internal/core/pathparams.go:108-125 | A segment is a placeholder if and only if it is a colon and a name of letters, digits and underscores that does not begin with a digit |
| `PathShapes.ValueIsLast` | internal/core/pathparams.go:83-88 | A name stands for the value of its last row |
| `PathParams.PathParamName` | internal/core/pathparams.go:108-125 | The character loop accepts exactly the whole-segment placeholders and returns the name |
| `PathParams.CollectValues` | internal/core/pathparams.go:83-88 | The value table reads as the last row of each name |
| `PathParams.FillSegments` | internal/core/pathparams.go:93-104 | The in-place loop leaves the filled segments |
| `PathParams.FillUrl` | internal/core/pathparams.go:37-104 | The whole function with its early returns computes the filling the theorems are about |
| `SigV4.CanonicalUriIsIdempotent` | internal/auth/auth_sigv4.go:132-145 | Canonicalising a path twice is canonicalising it once, for every path |
| `SigV4.EncodedSegmentIsFixed` | internal/auth/auth_sigv4.go:132-145 | A segment escapePathSegment produced is signed letter for letter |
| `SigV4.FilledPathIsSigned` | internal/auth/auth_sigv4.go:119-145 | The signed path has the segments of the wire path; a filled one is the same text and decodes to its value, so an encoded slash never becomes a separator |
| `SigV4.CanonicalSplit` | internal/auth/auth_sigv4.go:132-145 | The segments of the canonical path are the canonical segments |
| `SigV4.CanonicalQueryIffSamePairs` | internal/auth/auth_sigv4.go:150-169 | Two lists of pairs have the same canonical query string if and only if they are the same multiset; section 3.4.1.3.2 of RFC 5849 |
| `SigV4.SortedPairsFacts` | internal/auth/auth_sigv4.go:150-169 | The encoded pairs are sorted by key then value, and are exactly those of the query |
| `SigV4.CanonicalQueryIs` | internal/auth/auth_sigv4.go:150-169 | The canonical query is the encoded key, "=" and encoded value of every pair, as often as it came, with "&" between them, in the order of the encoded keys and for equal keys of the encoded values |
| `SigV4.CanonicalQueryString` | internal/auth/auth_sigv4.go:150-169 | Whatever order the query map is walked in, the text is that of every other order |
| `SigV4.CanonicalUriText` | internal/auth/auth_sigv4.go:132-145 | The split, in-place re-encoding and join computes the canonical path |
| `FolderTree.FileStore.RemoveFolder` | internal/storage/filestore.go:248-283 | Off a parent cycle the delete ends; it succeeds if and only if no file of the subtree is stuck, then exactly the subtree, its requests and their cached responses are gone; broken off, only parts of these are gone; in both cases the rest is unchanged and nothing points at a removed folder |
| `FolderTree.FileStore.RemoveRequest` | internal/storage/filestore.go:323-334 | The request and its cached response go together or not at all |
| `FolderTree.FileStore.RemoveChildren` | internal/storage/filestore.go:254-266 | The children's subtrees are cleared whatever order the map lists them in, or the delete is broken off |
| `FolderTree.DeleteKeepsLinks` | internal/storage/filestore.go:248-283 | A delete, finished or broken off, leaves no dangling parent or folder link where there was none |
| `FolderTree.RetryFinishes` | internal/storage/filestore.go:248-283 | A delete broken off and then repeated removes in all exactly what one success would have |
| `FolderTree.CycleNeverShrinks` | internal/storage/filestore.go:248-264 | On a parent cycle some child is on it too, with the same subtree |
| `FolderTree.EndlessIffOnCycle` | internal/storage/filestore.go:248-264 | The recursion of a delete reaches every depth if and only if the folder is its own ancestor |
| `FolderTree.ChildrenShareNothing` | internal/storage/filestore.go:254-264 | Off a cycle the subtrees of two children share no folder |
| `FolderTree.SubtreeLeft` | internal/storage/filestore.go:248-283 | After any part of a delete, a subtree is what is left of it |
| `Stream.BufferIsTail` | stream.go:63-83 | In every run of pushes, drains and closing the buffer is the last 2000 frames of the log, and dropped + length is its length |
| `Stream.DrainsSkipOnlyEvicted` | stream.go:258-272 | Chained drains hand over strictly increasing log positions with the frames written there, and skip a frame if and only if more than 2000 had been written from it on at the first drain after it |
| `Stream.ReaderThatKeepsUpMissesNothing` | stream.go:258-272 | A reader never more than 2000 behind is handed the log up to its cursor, each frame once and in order |
| `Stream.FinalDrainIsCompleteIff` | stream.go:273-290 | Once a session is released, the reader's cursor is at the end of the log if and only if no frame was pushed after the release |
| `Stream.QuietCloseLosesNothing` | stream.go:85-93 | With no push after closing, the final drain leaves nothing behind |
| `Stream.LatePushIsLost` | stream.go:293-307 | A frame pushed after the final drain is never handed over: concrete run |
| `Stream.StreamSession.PushFrame` | stream.go:63-83 | The append-and-evict code gives the definition's buffer and count |
| `Stream.StreamSession.MarkClosed` | stream.go:85-93 | The session is closed and keeps its frames for the final drain |
| `Stream.App.DrainStream` | stream.go:258-290 | The clamped slice, the next cursor and the closed flag; a closed session is released, an unknown one reads as closed |
| `Verdicts.PassesIff` | internal/runner/runner.go:233-262 | A request passes if and only if it completed, its script ran, all declared checks hold, and with none declared its status is below 400 and it has no script that should have declared one |
| `Verdicts.CountedChecksFail` | internal/runner/runner.go:242-256 | The count in a failure's reason is the number of its failing checks, and never 0 |
| `Verdicts.ChecksAre` | internal/runner/runner.go:491-530 | Every result has a check, and its checks all hold exactly when what they were made from does |
| `Verdicts.ReasonIsReported` | internal/runner/runner.go:427-530 | For every outcome the reason the console shows is the error, the script check, the number of failing checks or the message of the single check that a report shows |
| `Verdicts.ReasonIsTrue` | internal/runner/runner.go:233-262 | Every reason is true of the outcome: the error there was, the script error, a check that does not hold, the status at 400 or above with no check declared, or a script that declared none |
| `RunReports.ChecksShow` | internal/runner/runner.go:491-530 | For every response: one check per assertion, test and script error, in this order, each with its name, kind, outcome and message, or one check for the request |
| `Verdicts.GiveVerdict` | internal/runner/runner.go:233-262 | The branches of the verdict, with its counting loops |
| `Verdicts.CollectChecks` | internal/runner/runner.go:491-530 | The loops build the check list of the definition |
| `PlanRuns.FinishedRunIsWhole` | internal/runner/runner.go:376-416 | A run that finishes ran every planned request for every row, in order, bailing or not |
| `PlanRuns.BailKeepsThePrefix` | internal/runner/runner.go:410-414 | With bail the results are the shortest prefix of the unbailed results that ends at the first failure; without a failure the two runs are equal |
| `PlanRuns.BailKeepsTheExitStatus` | cmd/cli/runcmd.go:242-284 | Bailing never changes the exit status |
| `PlanRuns.RowSource.Next` | internal/runner/data.go:283-303 | The cursor over a data file with a limit, or over a repeat count |
| `RunReports.RowsRun` | internal/runner/data.go:251-303 | Row n is run if and only if it is among the iterations, at least one, or in the data file a good row within a limit above 0; a malformed row within it breaks the run off |
| `RunReports.ResultsAreInPlace` | internal/runner/runner.go:376-416 | In every run, finished, bailed or broken off, the result after m whole passes and k more requests is that of request k in iteration m + 1, made of what its execution gave |
| `PlanRuns.RunAll` | internal/runner/runner.go:364-425 | The nested loops compute the run of the definition, cancelled, bailed or broken by a malformed row |
| `JUnit.SuiteAgreesIff` | internal/reporters/junit.go:82-133 | For every outcome a request's suite is green if and only if the request passed, or failed with an error without a text on a response whose checks all hold |
| `JUnit.GreenDocumentIff` | internal/reporters/junit.go:76-160 | The document has a test and no failure or error if and only if a request ran, none failed other than silently, and no text says the run was broken off |
| `JUnit.ExitStatusAgreesIff` | cmd/cli/runcmd.go:242-284 | For every recorded run: exit status 0 agrees with a green document if and only if the run does not fail silently, that is by an error without a text on a response whose checks all hold, or by an abort without one, and nothing else |
| `JUnit.SilentErrorDisagrees` | internal/reporters/junit.go:94-111 | For every request and world whose first outcome is such a silent error: the run of that request alone fails and its document is green |
| `JUnit.AlwaysAgreeIff` | internal/runner/runner.go:347-425 | For a kind of outcomes: every run, over any plan, source and world that gives only these, agrees with its report if and only if none of them is a silent error |
| `JUnit.EngineRunsAgree` | internal/core/engine.go:457-526 | What the engine returns is never one: for every plan, data source and sends, bailing or not, a run through it agrees with its report |
| `JUnit.RunAndReportAgree` | internal/runner/runner.go:364-425 | For every plan, data source and world without silent errors, bailing or not: exit status 0 if and only if the report of the run is green |
| `JUnit.ReportSuite` | internal/reporters/junit.go:82-133 | The counters of a suite are the numbers of its cases, failures and errors |
| `JUnit.Report` | internal/reporters/junit.go:76-160 | The document totals are the sums over its suites, the suite of a broken-off run included |
| `RunReports.DocumentShows` | internal/reporters/junit.go:76-160 | For every run the document has a suite per result, with a case per check that shows its name, kind and message, the error of a request that did not complete as its first case, and one more suite with the text of a run broken off |
| `JUnit.CountPassed` | internal/runner/runner.go:176-189 | The number of passing requests; the failed count is 0 exactly when every request passed |
| `Trial.RunsOnlyUseUp` | internal/license/trial.go:69-150 | Between any two resolves of any run in which one store at a time may be lost, stale or forged and the clock is arbitrary: the start never moves later, the mark never back, the days never grow, expired stays |
| `Trial.NothingIsGained` | internal/license/trial.go:69-150 | The same for one resolve |
| `Trial.ResolveIsBounded` | internal/license/trial.go:117-130 | The mark is at or after the start, and at most 45 days past the highest stored mark |
| `Trial.DaysLeft` | internal/license/trial.go:139-150 | Days stay within 0 and 14, are 0 exactly when expired, and the trial expires exactly when 14 days have elapsed |
| `Trial.DaysAreExact` | internal/license/trial.go:139-150 | The days shown are the least number of days of 86400 seconds after the mark that reach the end of the 14 days |
| `Trial.MarkIsExact` | internal/license/trial.go:94-130 | The mark is the latest of start and stored marks, moved on to the clock by 45 days at most |
| `Trial.StartIsEarliest` | internal/license/trial.go:76-92 | The start is the earliest one stored that is not zero, else now |
| `Trial.StartIsZeroIff` | internal/license/trial.go:76-92 | The recorded start is the zero time if and only if no start was stored and the clock reads the zero time |
| `Trial.StartIsFinalIff` | internal/license/trial.go:69-150 | In every run that goes on from a resolve its start never moves later if and only if it was not resolved at the zero time without a stored start |
| `Trial.ZeroClockStartsAgain` | internal/license/trial.go:76-92 | A trial recorded at the zero time begins anew, with all its days, at any later reading |
| `Trial.StandingIsByHighestReading` | internal/license/trial.go:69-150 | With stores only lost, the standing is that of the first clock reading and the highest one: losses, rollbacks and the 45-day cap leave no trace |
| `Trial.TrialTracker.Resolve` | internal/license/trial.go:69-150 | The step-by-step reconciliation, the two best-effort writes and the standing |
| `Trial.TrialTracker.EarliestStart` | internal/license/trial.go:76-92 | The loop over the two stores gives the earliest start that is not zero, else now |
| `Trial.TrialTracker.MarkSeen` | internal/license/trial.go:110-130 | The high-water mark with the capped clock |
| `License.LicenseRoundTrip` | internal/license/model.go:102-124 | A reader takes the signed bytes apart into every field again, for all licences whose field texts are shorter than 2^32 bytes |
| `License.SameBytesSameLicense` | internal/license/model.go:81-98 | Equal signed bytes mean equal licences: no field value can imitate a field boundary |
| `License.LongFieldsCollide` | internal/license/model.go:106-111 | Every licence has two variants that differ and have the same signed bytes: 2^32 zero bytes as the key and no email, or the other way round |
| `License.TellsApartIff` | internal/license/model.go:81-124 | For every n: equal signed bytes mean equal licences among those with fields shorter than n bytes if and only if n is at most 2^32 |
| `License.FieldsRoundTrip` | internal/license/model.go:106-111 | Length-prefixed fields are read back whatever they hold |
| `License.TimeRoundTrip` | internal/license/model.go:120-121 | A time in UTC at second precision is read back from its RFC 3339 text |
| `License.AtoiOfItoa` | internal/license/model.go:118-119 | A number is read back from its decimal text |
| `License.WriteLicense` | internal/license/model.go:102-124 | The buffer grown field by field holds the canonical bytes |
| `License.Buffer.WriteField` | internal/license/model.go:106-111 | One field more, length first |
| `Perf.RequestsAddUp` | internal/perf/runner.go:136-194 | The emitted request counts sum to all http_reqs points, in whatever time order the points come |
| `Perf.FailuresAddUpIff` | internal/perf/runner.go:269-292 | The emitted failures never exceed the failed points, and equal them if and only if no second has a failure and no request |
| `Perf.LoneFailureIsDropped` | internal/perf/runner.go:269-292 | A failed request in a second without any http_reqs point is in no sample: concrete run |
| `Perf.OffsetsIncrease` | internal/perf/runner.go:269-292 | Offsets are strictly increasing multiples of 1000, and each sample is that of its second and has requests |
| `Perf.BusySecondsAreSampled` | internal/perf/runner.go:269-292 | Every second with requests has its sample |
| `Perf.OrderedPointsKeepTheirSecond` | internal/perf/runner.go:166-181 | For points in time order each sample holds exactly the points of its own second |
| `PerfBuckets.BucketHolds` | internal/perf/runner.go:166-262 | For points in any order, a second holds the durations, in order, the requests and the failures of exactly those points for which it is the latest second reached so far |
| `PerfBuckets.BucketHasMostUsers` | internal/perf/runner.go:256-260 | and the greatest number of users among them |
| `Perf.OtherSecondsStay` | internal/perf/runner.go:244-262 | A late point falls into the open second and changes no other |
| `Perf.BucketAggregator.AddPoint` | internal/perf/runner.go:244-262 | The first point opens its second; the metric is added to the open bucket |
| `Perf.BucketAggregator.CloseAndAdvance` | internal/perf/runner.go:269-292 | The open bucket as a sample when it has requests, an empty next second, and nothing at all before the first point |
| `Perf.CloseThrough` | internal/perf/runner.go:174-180 | The advance loop ends, with every second before the new point emitted or idle |
| `Perf.StreamAndBucket` | internal/perf/runner.go:136-194 | The loop over the points emits the samples of the reference grouping |
| `MockRoutes.Match` | internal/mockserver/route.go:286-316 | The first of the most specific matching routes; without one, the recorded methods of the path, each once, sorted, and not the one asked for |
| `MockRoutes.SpecificityIsAnOrder` | internal/mockserver/route.go:319-333 | On routes of one depth specificity is a strict weak order |
| `MockRoutes.BestIsUnique` | internal/mockserver/route.go:286-316 | At most one route answers that description |
| `MockRoutes.ExactRouteWins` | internal/mockserver/route.go:275-285 | If some matching route is all literal, the answer has no wildcard |
| `MockRoutes.AnswerIsMostSpecific` | internal/mockserver/route.go:275-333 | Of the routes of the method that fit the path the answer has the fewest wildcards; among those, a literal where another first has a wildcard in its place; among those alike in that, it comes first |
| `MockRoutes.Beats` | internal/mockserver/route.go:319-333 | The comparison loop decides specificity |
| `McpSessions.OneAtATime` | app.go:678-687 | In every interleaving one operation at a time works on a connection |
| `McpSessions.NoUseAfterClose` | app.go:726-830 | Without a shutdown no operation ever works on a closed session |
| `McpClosings.ClosedOnce` | app.go:726-830 | nor is a session closed by two steps of a run |
| `McpClosings.ClosedAreTheRun` | app.go:726-830 | The closed sessions the theorems speak of are exactly those that a step of the run closed |
| `McpSessions.OneLiveSession` | app.go:726-763 | Without a shutdown a connection never has two live sessions, not even during a self-healing reconnect |
| `McpSessions.SecondSessionIsSwept` | app.go:145-166 | In every run, of two live sessions of one connection one is waiting to be closed by a shutdown |
| `McpSessions.StaleSessionsWereSwept` | app.go:145-166 | In every run with a shutdown, a closed session that an operation still works on was in the map when the shutdown swept it |
| `McpSessions.NoSessionLeaks` | app.go:67-79 | When no operation is under way the live sessions are exactly those in the map, shutdown or not |
| `McpSessions.ShutdownIsCompleteIff` | app.go:145-166 | In every run: after a shutdown things can go on so that a session is live once all is quiet if and only if some connect was before its registration at that moment |
| `McpSessions.SurvivorsCameLater` | app.go:145-166 | Whatever is live in a quiet state after a shutdown was registered by a step after it |
| `McpSessions.ShutdownMissesADial` | app.go:145-166 | A shutdown takes no connection lock: a connect that was dialing leaves a live session behind, concrete run |
| `McpSessions.NoDeadlock` | app.go:726-830 | While an operation is not done, some operation can go on |
| `McpSessions.StepKeepsInv` | app.go:726-830 | Every step keeps locks and threads in agreement, the map free of closed sessions, and every live session within reach of somebody who may close it |
| `SendSlots.NewestRunningSendOwnsTheSlot` | app.go:331-359 | In every run of overlapping sends a cancel slot belongs to a send if and only if it runs and is the last one begun for its request |
| `SendSlots.CancelReachesTheNewest` | app_cancel.go:21-28 | A cancel reaches the newest send of the request if it still runs, and no other |

## Left out

- JUnit.RunAndReportAgree: what cancels a run or breaks a data file off is taken to have a text; `JUnit.ExitStatusAgreesIff` has no such assumption.
- FolderTree.FileStore.RemoveFolder: the folder must not be its own ancestor, because otherwise the recursion in the source has no bound (`FolderTree.EndlessIffOnCycle`).
- Variables.ReadYourWritesIff: the parent links above the request must not run into a cycle, because the source's loop over them does not end on one (`Variables.ChainEndsIff`).
- License.SameBytesSameLicense: fields shorter than 2^32 bytes; the bound is exact (`License.TellsApartIff`).
- OAuthFlow.NeverReplaysIff: sign-in and sign-out do not race the sends.
- SecretOverlaps.ApartSecretsNeverLeak: sufficient for several secrets with brackets; the exact condition is proved for bracket-free secrets and for a single one.
- The protocol implementations (HTTP, gRPC, WebSocket, SSE, GraphQL) and the script engine: what they return is arbitrary; a response is saved under the id of the request that was sent.
- Strings that are not valid UTF-8, and upper-casing or case folding outside ASCII.
- `mergeSecretMaps`, `pathTo`, `folderPath`, `AssertionLabel` and other single-pass renderings: easy members.
- JSON, YAML and XML encoding, the keychain's record format, file paths, and the display of rates and percentiles of a sample.
- Float rounding in second boundaries and in the trial's day count; both are taken exactly.
- Cryptography: HMAC, SHA-256 and Ed25519 do not occur, only the bytes they are given.
- The Postman script translator, its loop over pending and suppressed lines included.
- Collection importers, history, cookies, settings, git and the user interface: easy members or foreign calls.
- The derivation of the mock server's route table from URLs, and the splitting of the request path; routes are taken as compiled and the method as upper-cased.
- Real time in runs: delays and timeouts appear only as the point at which a run is cancelled.
