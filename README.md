# neverest command pipeline, modelled in Dafny

The `neverest` manager module of Ceph offers a REST interface. It turns HTTP
requests into Ceph commands and runs them in *multi-stage pipelines*. A
pipeline is a list of stages, and a stage is a list of command payloads.

A `CommandsRequest` works like this:
- It dispatches its first stage as soon as it is created.
- It tracks each dispatched command as an outcome tagged `<uuid>:<index>`.
- When a completion arrives, it moves the outcome from `running` to `finished` (code 0) or to `failed` (any other code).
- Once `running` drains, it dispatches the next waiting stage.

The `Module` keeps the list of requests. It routes every "command" completion
to the one request running the tag, and it appends newly submitted requests.
The HTTP handlers build pipelines from request-argument maps, using the
helpers and constant tables of `common.py`. Those helpers include a
recursive walk over the CRUSH map that collects the OSDs selected by a
placement rule.

Layout:
- `wrappers.dfy`: `Option` and `Result`.
- `json.dfy`: the untyped argument and record values, as association lists, with Python truthiness and `str`.
- `common.dfy`: the constant tables, `HUMANIFY`, `INVALID_POOL_ARGS` and `POOL_UPDATE_COMMANDS`.
- `crush.dfy`: `CRUSH_RULE_OSDS` and its nested walks.
- `pipeline.dfy` (module `Requests`):
  - the pure state of a request, `RequestState`, and its transitions;
  - the class `CommandsRequest`, whose methods update its fields in place and are proved against those transitions.
- `registry.dfy`: the class `Module`, with its `requests` list, `_notify`, `submit_request`, `get_osd_by_id` and `get_pool_by_id`.
- `api.dfy`: `api.py`'s pipeline builders and registry handlers.
- `unique_tags.dfy`: the reuse of tags across stages, and a corrected numbering that never reuses a consumed tag.

The request id is a natural number supplied by the registry, which hands out
ids in increasing order. The source uses `id(self)` instead. A tag is the
pair (id, index). The completion code and output of a command come in as a
`Completion` value. The OSD and pool tables of the OSD map come in as
sequences of records.

The central invariant of the registry is `Registry.Coherent`:
- every request is `Valid`, so the tags in its `running` are pairwise distinct and carry its own id;
- the ids are pairwise distinct and below the next id.

Every registry operation preserves it. Under it, `_notify` always finds at
most one owner of a tag.

## Model

| member | source | states |
|---|---|---|
| Common.Humanify | src/pybind/mgr/neverest/common.py:23-30 | the loop builds exactly `Description(command)`: the prefix, then a space and one `key=value` piece per non-prefix key |
| Common.DescriptionShape | src/pybind/mgr/neverest/common.py:23-30 | the text starts with the command's prefix, and it is exactly the prefix iff every argument key is "prefix" |
| Common.PiecesSpec | src/pybind/mgr/neverest/common.py:25-28 | one piece per non-prefix argument, and every piece comes from such an argument; no pieces iff all keys are "prefix" |
| Common.InvalidPoolArgs | src/pybind/mgr/neverest/common.py:33-44 | the loop returns exactly the disallowed keys of the arguments, in argument order |
| Common.DisallowedSpec | src/pybind/mgr/neverest/common.py:33-44 | a key is reported iff it is an argument key outside the pool properties and quota names; the result is empty iff every key is allowed |
| Common.PoolUpdateCommands | src/pybind/mgr/neverest/common.py:48-69 | the result is always a list of exactly one stage, `UpdateStage(poolName, args)` |
| Common.SetLoop | src/pybind/mgr/neverest/common.py:51-58 | the first loop produces the 'osd pool set' commands of the present pool properties |
| Common.QuotaLoop | src/pybind/mgr/neverest/common.py:60-67 | the second loop produces the 'osd pool set-quota' commands of the present quota keys |
| Common.PresentSpec | src/pybind/mgr/neverest/common.py:51-53 | a property is selected iff it is in the table and a key of the arguments, in table order |
| Common.SetCommandsSpec | src/pybind/mgr/neverest/common.py:51-58 | one 'osd pool set' (pool, var, val) per present property, in `POOL_PROPERTIES` order, with the argument's value |
| Common.QuotaCommandsSpec | src/pybind/mgr/neverest/common.py:60-67 | one 'osd pool set-quota' per present quota key, with the field renamed and the value stringified |
| Common.PresentQuotasSpec | src/pybind/mgr/neverest/common.py:60-61 | a quota entry is selected iff the quota table lists it and args carries its key, in table order |
| Common.QuotaCommandsComplete | src/pybind/mgr/neverest/common.py:60-67 | every quota key that args carries gets its 'osd pool set-quota', with the renamed field and the stringified value |
| Common.UpdateStageIgnoresOtherKeys | src/pybind/mgr/neverest/common.py:48-69 | two argument maps that agree on every pool property and quota key give the same update stage |
| Crush.NodesById | src/pybind/mgr/neverest/common.py:72-73 | the id map has exactly the ids of the nodes, each mapped to a node of the list with that id |
| Crush.NodesByIdLastWins | src/pybind/mgr/neverest/common.py:73 | like Python's dict, a node listed last with its id is the one filed under that id |
| Crush.LeafIds | src/pybind/mgr/neverest/common.py:75-86 | the leaf walk only ever returns non-negative ids |
| Crush.LeafOfOsd | src/pybind/mgr/neverest/common.py:76-77 | the leaf walk of a node with a non-negative id is the singleton of that id |
| Crush.DescendantIds | src/pybind/mgr/neverest/common.py:88-97 | every id returned is a node of the requested type |
| Crush.DescendantsStopAtMatch | src/pybind/mgr/neverest/common.py:91-95 | the walk never looks below a node of the requested type: changing that node's children does not change the result |
| Crush.GatherOsds | src/pybind/mgr/neverest/common.py:99-122 | the step walk only ever returns non-negative ids |
| Crush.EmitAddsNothing | src/pybind/mgr/neverest/common.py:99-120 | the 'emit' branch contributes the empty set, because a root with a non-negative id has already returned |
| Crush.FailureSticks | src/pybind/mgr/neverest/common.py:124-128 | once a take step raises, the union over the rule raises |
| Crush.NoTakeNoOsds | src/pybind/mgr/neverest/common.py:124-128 | a rule without a 'take' step yields the empty set |
| Crush.RuleOsdsAreOsds | src/pybind/mgr/neverest/common.py:124-128 | every id the rule yields is non-negative, and a rule without 'take' yields the empty set |
| Crush.CrushRuleOsds | src/pybind/mgr/neverest/common.py:72-128 | the loop over the steps computes exactly the union of the take steps' gathers |
| Crush.RuleOsdsUpTo | src/pybind/mgr/neverest/common.py:124-128 | the union of the gathers of the take steps among the first n steps; its ids are non-negative |
| Crush.RuleOsds | src/pybind/mgr/neverest/common.py:72-128 | CRUSH_RULE_OSDS over the id map of the nodes; its properties are `RuleOsdsAreOsds`, `FailureSticks` and `NoTakeNoOsds` |
| Requests.CommandsRequest.Run | src/pybind/mgr/neverest/module.py:43-62 | one outcome per command, in order, the i-th tagged (uuid, i) with the i-th payload; the tags are pairwise distinct |
| Requests.DispatchTags | src/pybind/mgr/neverest/module.py:50-62 | a dispatched stage has pairwise distinct tags, all with the request's id and no result, and it carries exactly the stage's payloads |
| Requests.Start | src/pybind/mgr/neverest/module.py:65-84 | the contents of a new request; its properties are `StartSpec` and `StartLive` |
| Requests.CommandsRequest.constructor | src/pybind/mgr/neverest/module.py:65-84 | the new state is `Start(id, pipeline)`: stage 0 dispatched, the rest waiting |
| Requests.StartSpec | src/pybind/mgr/neverest/module.py:65-84 | running carries the first stage, running and waiting together carry the whole pipeline in order, and an empty pipeline is finished with state "success" |
| Requests.CommandsRequest.Next | src/pybind/mgr/neverest/module.py:87-97 | the fields become those of `Next()` of the old state |
| Requests.NextSpec | src/pybind/mgr/neverest/module.py:87-97 | no-op with no waiting stage; otherwise exactly the head stage leaves waiting and its outcomes are appended to running; finished and failed are untouched |
| Requests.NextValid | src/pybind/mgr/neverest/module.py:87-97 | advancing a drained valid request keeps running tags distinct and owned |
| Requests.CommandsRequest.Finish | src/pybind/mgr/neverest/module.py:100-111 | returns whether the tag was running, and the fields become those of `Finish(tag, c)` of the old state |
| Requests.FinishMovesOne | src/pybind/mgr/neverest/module.py:100-111 | exactly one outcome with the tag leaves running, completed, to the end of finished on code 0 or of failed otherwise; the sizes add up and the sent (tag, payload) pairs are conserved |
| Requests.FinishKeepsSent | src/pybind/mgr/neverest/module.py:100-111 | the multiset of (tag, payload) pairs over running, finished and failed is unchanged |
| Requests.FinishUnknownTag | src/pybind/mgr/neverest/module.py:100-111 | a tag not running changes nothing |
| Requests.FinishTwiceIsNoop | src/pybind/mgr/neverest/module.py:100-111 | in a valid request the tag is no longer running after finish, so a second finish changes nothing |
| Requests.FinishValid | src/pybind/mgr/neverest/module.py:100-111 | finish keeps the running tags distinct and owned |
| Requests.CommandsRequest.IsRunning | src/pybind/mgr/neverest/module.py:114-118 | true iff some running outcome carries the tag |
| Requests.RequestState.GetState | src/pybind/mgr/neverest/module.py:121-147 | "pending" iff running or waiting is non-empty; "failed" iff both are empty and failed is not; "success" otherwise |
| Requests.RequestState.IsReady | src/pybind/mgr/neverest/module.py:121-123 | is_ready: nothing runs and a stage waits; `AdvancesOnlyWhenDrained` ties it to advancement |
| Requests.RequestState.IsWaiting | src/pybind/mgr/neverest/module.py:126-127 | is_waiting: a stage waits; `RequestDetailSpec` shows it as the detail's flag |
| Requests.RequestState.IsFinished | src/pybind/mgr/neverest/module.py:130-132 | is_finished: nothing runs and nothing waits; `StartSpec` and `ReplayProgress` say when it holds |
| Requests.RequestState.HasFailed | src/pybind/mgr/neverest/module.py:135-136 | has_failed: some outcome failed; `ReplayFailure`, `ReplayKeepsFailure` and `CompletionOnlyAppends` say when it holds |
| Requests.RequestState.Finish | src/pybind/mgr/neverest/module.py:100-111 | finish as a transition; its properties are `FinishMovesOne`, `FinishKeepsSent`, `FinishUnknownTag` and `FinishTwiceIsNoop` |
| Requests.RequestState.Next | src/pybind/mgr/neverest/module.py:87-97 | next as a transition; its properties are `NextSpec` and `NextValid` |
| Requests.RequestState.OnCompletion | src/pybind/mgr/neverest/module.py:185-188 | finish, then next when ready; its properties are `AdvancesOnlyWhenDrained`, `CompletionOnlyAppends` and `CompletionProgress` |
| Requests.OnCompletionValid | src/pybind/mgr/neverest/module.py:185-188 | finish followed by next-when-ready keeps a request valid |
| Requests.AdvancesOnlyWhenDrained | src/pybind/mgr/neverest/module.py:185-188 | a completion changes waiting iff it drains running while a stage waits; with several running it is just finish |
| Requests.CompletionOnlyAppends | src/pybind/mgr/neverest/module.py:185-188 | finished and failed only grow at their ends; a failure is never undone; a nonzero code makes the request failed |
| Requests.CompletionProgress | src/pybind/mgr/neverest/module.py:185-188 | on a live request (no empty stage except perhaps the last), every accepted completion lowers the remaining work by exactly one and keeps the request live; a trailing empty stage is popped by the last completion |
| Requests.ReplayProgress | src/pybind/mgr/neverest/module.py:185-188 | on a live request, a sequence of accepted completions keeps it valid and live, and exactly as many completions as the work finish it |
| Requests.ReplayFailure | src/pybind/mgr/neverest/module.py:106-107 | if any accepted completion has a nonzero code, the request ends up failed |
| Requests.ReplaySuccess | src/pybind/mgr/neverest/module.py:104-107 | if every accepted completion has code 0, failed stays empty |
| Requests.ReplayCompletes | src/pybind/mgr/neverest/module.py:139-147 | on a live request (a trailing empty stage allowed), completing all the work ends in "success" when every code is 0 and in "failed" otherwise |
| Requests.ReplayKeepsFailure | src/pybind/mgr/neverest/module.py:135-137 | a failed request stays failed whatever completions follow |
| Requests.StartLive | src/pybind/mgr/neverest/module.py:65-84 | a pipeline with no empty stage except perhaps the last starts live, and its remaining work is its number of commands |
| Requests.EmptyStageStalls | src/pybind/mgr/neverest/module.py:87-97 | an empty stage leaves the request pending with nothing running, at the start and after the last completion of a stage |
| Requests.ThreeCommandScenario | src/pybind/mgr/neverest/module.py:65-147 | [[A],[B,C]] with A and B succeeding and C failing ends with finished [A,B], failed [C] and state "failed" |
| Registry.Module.constructor | src/pybind/mgr/neverest/module.py:154-160 | the registry starts empty and coherent |
| Registry.Module.SubmitRequest | src/pybind/mgr/neverest/module.py:358-360 | exactly one fresh request is appended, earlier entries are unchanged, its id is returned, and the registry stays coherent |
| Registry.CoherentSnoc | src/pybind/mgr/neverest/module.py:358-360 | appending a valid request with the next id keeps the registry coherent |
| Registry.OwnersSpec | src/pybind/mgr/neverest/module.py:177-179 | the filter yields, in increasing order, exactly the positions of the requests running the tag |
| Registry.Route | src/pybind/mgr/neverest/module.py:175-190 | _notify on the states of the registry; its properties are `RouteReachesOwner`, `RouteDropsUnknown` and `RouteCoherent` |
| Registry.Module.RequestsRunning | src/pybind/mgr/neverest/module.py:177-179 | the loop returns the requests at exactly those positions, in order |
| Registry.OwnerIsUnique | src/pybind/mgr/neverest/module.py:177-183 | in a coherent registry a running tag has exactly one owner, whose id is the tag's |
| Registry.RouteReachesOwner | src/pybind/mgr/neverest/module.py:175-190 | a "command" completion changes exactly its owner, by finish followed by next-when-ready |
| Registry.RouteDropsUnknown | src/pybind/mgr/neverest/module.py:175-190 | another notify type, or a tag that no request runs or that two or more requests run, changes nothing |
| Registry.RouteCoherent | src/pybind/mgr/neverest/module.py:175-190 | routing a completion keeps the registry coherent |
| Registry.Module.Notify | src/pybind/mgr/neverest/module.py:175-190 | the requests list is unchanged and the new states are `Route` of the old ones |
| Registry.Module.Complete | src/pybind/mgr/neverest/module.py:185-188 | finish then next-when-ready on the one request object, leaving every other request's state unchanged |
| Registry.GetOsdById | src/pybind/mgr/neverest/module.py:334-343 | a record is returned iff exactly one record has the id, and it is that record |
| Registry.OsdFound | src/pybind/mgr/neverest/module.py:334-343 | an id carried by exactly one record finds that record |
| Registry.GetPoolById | src/pybind/mgr/neverest/module.py:346-355 | a record is returned iff exactly one record has the id, and it is that record |
| Registry.PoolFound | src/pybind/mgr/neverest/module.py:346-355 | an id carried by exactly one record finds that record |
| Api.FlagCommand | src/pybind/mgr/neverest/api.py:89-97 | 'osd set' iff the value is truthy, 'osd unset' otherwise, keyed by the flag |
| Api.FlagCommands | src/pybind/mgr/neverest/api.py:81-97 | the loop builds exactly `FlagStage(args)` |
| Api.FlagStage | src/pybind/mgr/neverest/api.py:83-97 | every command is the set/unset of an argument key that is an OSD flag, and every argument key that is an OSD flag gets its set/unset command |
| Api.FlagStageEmpty | src/pybind/mgr/neverest/api.py:83-97 | the stage is empty iff no argument key is an OSD flag |
| Api.ConfigOsdPatch | src/pybind/mgr/neverest/api.py:77-99 | submits the single-stage pipeline [FlagStage(args)] and answers its id |
| Api.OsdPatchRefuses | src/pybind/mgr/neverest/api.py:155-176 | an error, and nothing to submit, iff "up" is given and truthy |
| Api.OsdPatch | src/pybind/mgr/neverest/api.py:155-190 | the stage OsdId.patch builds or its refusal; its properties are `OsdPatchRefuses`, `OsdPatchOrder` and `OsdPatchContents` |
| Api.OsdPatchOrder | src/pybind/mgr/neverest/api.py:155-190 | at most three commands, in the order in/out, down, reweight |
| Api.OsdPatchContents | src/pybind/mgr/neverest/api.py:162-190 | 'osd in'/'osd out' iff "in" is given (by its truthiness), 'osd down' iff "up" is given, 'osd reweight' with exactly the given weight, nothing else |
| Api.OsdCommandPost | src/pybind/mgr/neverest/api.py:214-227 | [['osd <command>']] iff the OSD is found, up and the command implemented; unknown OSD is its own error |
| Api.OsdCommandAccepted | src/pybind/mgr/neverest/api.py:214-227 | an OSD that is up and alone with its id accepts every implemented command |
| Api.PoolPostAccepts | src/pybind/mgr/neverest/api.py:239-268 | submits iff name and pg_num are given and every other key is a pool argument; a missing name is its own error |
| Api.PoolPost | src/pybind/mgr/neverest/api.py:239-268 | the pipeline Pool.post builds or its refusal; its properties are `PoolPostAccepts` and `PoolPostPipeline` |
| Api.PoolPostPipeline | src/pybind/mgr/neverest/api.py:244-268 | the pipeline is [[create]] then the update stage of the remaining keys, which never re-sets pg_num |
| Api.PoolPostCompletes | src/pybind/mgr/neverest/api.py:244-268 | the request Pool.post submits starts live even with an empty update stage, and completing its commands ends in "success" when every code is 0 and in "failed" otherwise |
| Api.RestKeys | src/pybind/mgr/neverest/api.py:244-261 | the remaining keys are all pool arguments iff every key other than name and pg_num is |
| Api.RestAllowed | src/pybind/mgr/neverest/api.py:260-262 | the validation reports nothing iff every key is a pool argument |
| Api.PoolPatch | src/pybind/mgr/neverest/api.py:285-300 | the update pipeline of the pool's name iff the pool exists and every key is a pool argument; an unknown pool is an error |
| Api.PoolDelete | src/pybind/mgr/neverest/api.py:303-317 | the 'osd pool delete' pipeline naming the pool twice iff the pool exists |
| Api.Submit | src/pybind/mgr/neverest/module.py:358-360 | a refused build answers its error and leaves the registry alone; a built pipeline is appended as a new request whose id is answered |
| Api.StateMapKeys | src/pybind/mgr/neverest/api.py:324-330 | the map's keys are exactly the registered ids |
| Api.StateMapValues | src/pybind/mgr/neverest/api.py:324-330 | every registered id maps to its request's `get_state` |
| Api.ListStates | src/pybind/mgr/neverest/api.py:324-330 | the loop builds exactly the state map of the registry |
| Api.CleanFinished | src/pybind/mgr/neverest/api.py:333-344 | keeps exactly the unfinished requests, in order, returns the number removed, and keeps the registry coherent |
| Api.KeepUnfinishedStates | src/pybind/mgr/neverest/api.py:338-341 | filtering the requests filters their states |
| Api.UnfinishedSpec | src/pybind/mgr/neverest/api.py:338-341 | a state is kept iff it is registered and not finished |
| Api.UnfinishedKeepsAll | src/pybind/mgr/neverest/api.py:338-341 | with no finished request the registry is unchanged |
| Api.UnfinishedAppend | src/pybind/mgr/neverest/api.py:338-341 | the filter distributes over concatenation, so the order is kept |
| Api.UnfinishedCoherent | src/pybind/mgr/neverest/api.py:333-344 | the clean-up keeps the registry coherent |
| Api.CancelRequest | src/pybind/mgr/neverest/api.py:386-395 | true iff some request has the id; the new registry is `Cancel` of the old, still coherent |
| Api.RemoveAt | src/pybind/mgr/neverest/api.py:389-392 | popping the first request with the id leaves `Cancel` of the old states |
| Api.CancelAt | src/pybind/mgr/neverest/api.py:389-395 | `Cancel` removes the first request with the id and only it, and is a no-op when none has it |
| Api.CancelSpec | src/pybind/mgr/neverest/api.py:386-395 | one request fewer, none with the id, still coherent, and later completions for its tags are dropped |
| Api.WithUuidUnique | src/pybind/mgr/neverest/api.py:353-359 | in a registry with distinct ids the filter finds exactly the request |
| Api.RequestDetailSpec | src/pybind/mgr/neverest/api.py:351-383 | an answer iff a request has the id, holding its running, finished, failed and waiting contents and the three flags |
| Api.RequestDetail | src/pybind/mgr/neverest/api.py:351-383 | RequestUuid.get with the waiting stages shown as their commands; its properties are `RequestDetailSpec` |
| Api.RequestDetailAsWritten | src/pybind/mgr/neverest/api.py:351-383 | RequestUuid.get as written, raising while a stage waits; its properties are `AsWrittenFailsWhileWaiting` |
| Api.AsWrittenFailsWhileWaiting | src/pybind/mgr/neverest/api.py:372-375 | as written, the detail raises exactly while a stage waits, and agrees with the corrected detail otherwise |
| Api.AsWrittenTwoStageRequest | src/pybind/mgr/neverest/api.py:372-375 | a fresh request [[a],[b]] raises as written; the corrected detail lists b as waiting |
| UniqueTags.StaleTagTakenByNextStage | src/pybind/mgr/neverest/module.py:51-52 | as written, after [[a],[b]] drains its first stage the tag "<id>:0" runs again, and a second completion for it finishes b and reports "success" |
| UniqueTags.DispatchFromTags | src/pybind/mgr/neverest/module.py:50-62 | the corrected dispatch numbers a stage's commands from base: distinct tags in [base, base + n), carrying the stage's payloads |
| UniqueTags.FinishShrinks | src/pybind/mgr/neverest/module.py:100-111 | finish keeps the count of issued commands, only removes running outcomes, and the finished tag no longer runs |
| UniqueTags.NextUniqueSpec | src/pybind/mgr/neverest/module.py:87-97 | the corrected next keeps the running tags distinct and below the issued count, and a consumed tag stays consumed |
| UniqueTags.OnCompletionUniqueSpec | src/pybind/mgr/neverest/module.py:185-188 | every completion keeps that invariant, and a consumed tag stays consumed |
| UniqueTags.StartUniqueSpec | src/pybind/mgr/neverest/module.py:65-84 | a new request with the corrected numbering meets the invariant and dispatches the first stage |
| UniqueTags.ReplayKeepsConsumed | src/pybind/mgr/neverest/module.py:185-188 | a consumed tag stays consumed over any sequence of completions |
| UniqueTags.CompletedTagNeverReturns | src/pybind/mgr/neverest/module.py:185-188 | with the corrected numbering a tag, once completed, never runs again, so a second delivery of it changes nothing |
| UniqueTags.UniqueTwoStageRequest | src/pybind/mgr/neverest/module.py:51-52 | corrected, the second delivery of "<id>:0" for [[a],[b]] is a no-op and b still runs |

## Left out

- Flask, flask_restful, SSL serving and endpoint discovery (`serve`, `_serve`, `get_doc_api`) are transport and are not modelled.
- The `catch` and `lock` decorators and the `RLock`s are not modelled. The model is sequential. An exception that `catch` would turn into an error answer is a `Failure` value (`Raised` where the source raises).
- `send_command`, `CommandResult`, `self.get(...)` and the other manager calls are foreign. Dispatch records (tag, payload). Completion codes and outputs, and the OSD and pool records, are inputs.
- `get_mons`, `get_osds` and `get_osd_pools` are not modelled. They reshape untyped manager JSON, and the reweight default they use is a float.
- `Requests.Start`: the exception path of `CommandsRequest.__init__` is not modelled. Dispatch is taken never to raise. After a swallowed error the source would read an unbound `results`.
- `Requests.CommandsRequest.Run`: `uuid4()` as the default argument and `id(self)` as the id are replaced by a natural number that the registry supplies. It is fresh because the registry never reuses an id.
- `Registry.Module.Notify`: the log lines of `_notify` and of `notify` are not modelled.
- `Common.Humanify`, `Common.InvalidPoolArgs`, `Api.FlagCommands`: Python 2 dict and set iteration order is taken to be the order of the argument list. `ConfigOsd.patch` iterates over a set intersection.
- `Json.Text`: `str` of a value covers null, booleans, integers, strings and lists. Python 2 has two string types, and their `repr` inside a list differs. A string that `json.loads` decoded is unicode (`Str`) and shows as `u'...'`. A string that a handler builds with `str()` or takes from a literal is a byte string (`Bytes`) and shows as `'...'`, such as the `ids` of `osd in`, `osd out` and `osd down`. Floats, nested objects, the escaping of `repr`, the `L` suffix of long integers inside a list, and the encoding error that `str` raises on a non-ASCII string are not modelled.
- `Api.PoolPatch`, `Api.OsdCommandPost`: a record missing the key that the source reads (`'pool_name'`, `'up'`) would raise `KeyError`. The model's records always carry it.
- `Crush.CrushRuleOsds`: the walks carry a fuel bound for termination. A node chain deeper than the fuel gives `None`, like a missing id. The source would recurse until the interpreter's limit, or forever on a cyclic map.
- `Api.CancelSpec`: its last clause, that later completions for a cancelled request's tags are dropped, relies on ids never being reused. The source's id is `str(id(self))`, a memory address, which Python may hand to a request created after the cancelled one is freed. Such a request would then take those completions. The model's ids are fresh, so it does not capture this reuse.
- `Json.Get`: an object is an association list that may repeat a key, which a decoded dict cannot. The handlers' arguments are taken to have distinct keys. With a repeated key, `Get` returns the first entry where `json.loads` keeps the last, and `FlagStage` would issue one command per entry.
- Message texts of the error answers are not modelled, only which error it is.

## Findings

| source | as written | input that shows it | evidently intended | confidence | as-written member | corrected member |
|---|---|---|---|---|---|---|
| src/pybind/mgr/neverest/api.py:372-375 | `RequestUuid.get` maps `(x.command, x.outs, x.outb)` over `request.waiting`. That list holds stages (lists of payload dicts), not outcomes, so the attribute access raises and `catch` answers an error | any request that still has a waiting stage, e.g. a fresh request for [[a], [b]] | the waiting commands are listed, each with empty output | not executed | Api.AsWrittenTwoStageRequest | Api.RequestDetailSpec |
| src/pybind/mgr/neverest/module.py:51-52 | `run` numbers every stage's commands from 0, and `next` runs it again for each later stage (module.py:97). The tag of a drained stage is therefore reused by the next stage, and `_notify` hands a repeated completion for it to the new command (module.py:185-188) | [[a], [b]] with "<id>:0" completed twice: the second completion finishes b, which never ran to completion, and the request reports "success" | a consumed tag is never issued again, so a second delivery of it is dropped | not executed | UniqueTags.StaleTagTakenByNextStage | UniqueTags.CompletedTagNeverReturns |

The rest of the model keeps the numbering as written, since `Requests.Dispatch` models `run` as the source runs it. The corrected numbering and its proof are in `unique_tags.dfy`.
