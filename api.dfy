/**
 * The HTTP handlers of the RESTful API that touch the pipeline: the builders that
 * turn a decoded argument object into a pipeline and submit it, and the registry
 * operations on /request. An answer is either an error or the id of the submitted
 * request; the error messages are modelled by the reason they report.
 */
module Api {
  import opened Wrappers
  import opened Json
  import opened Common
  import opened Requests
  import opened Registry

  /** Why a handler answers with an error instead of submitting. */
  datatype Failure =
    | UpNotAllowed                          // an OSD cannot be set up
    | UnknownOsd(osdId: int)                // no unique OSD with the id
    | CommandNotAvailable(command: string)  // the OSD is down or the command is not offered
    | MissingName                           // Pool.post without "name"
    | MissingPgNum                          // Pool.post without "pg_num"
    | InvalidArgs(keys: seq<string>)        // pool arguments that are not pool properties
    | UnknownPool(poolId: int)              // no unique pool with the id
    | UnknownRequest(uuid: nat)             // no unique request with the id
    | Raised                                // an exception turned into an error answer

  datatype Answer = Error(failure: Failure) | Submitted(id: nat)

  // ----------------------------------------------------------- ConfigOsd.patch

  /** The command ConfigOsd.patch issues for one flag: set when the value is true, unset otherwise. */
  function FlagCommand(flag: string, v: Value): (c: Command)
    ensures c.prefix == "osd set" <==> Truthy(v)
    ensures c.prefix == "osd unset" <==> !Truthy(v)
    ensures c.args == [("key", Str(flag))]
  {
    Command(if Truthy(v) then "osd set" else "osd unset", [("key", Str(flag))])
  }

  /**
   * The commands of ConfigOsd.patch: one per argument that names an OSD flag, in
   * argument order. Every command comes from such an argument, and every such
   * argument gets its command.
   */
  function FlagStage(args: Object): (stage: Stage)
    ensures |stage| <= |args|
    ensures forall c :: c in stage ==>
      exists i :: 0 <= i < |args| && args[i].0 in OsdFlags && c == FlagCommand(args[i].0, args[i].1)
    ensures forall i :: 0 <= i < |args| && args[i].0 in OsdFlags ==> FlagCommand(args[i].0, args[i].1) in stage
    decreases |args|
  {
    if args == [] then []
    else
      var n := |args| - 1;
      var (key, v) := args[n];
      var init := FlagStage(args[..n]);
      assert forall i :: 0 <= i < n ==> args[..n][i] == args[i];
      init + (if key in OsdFlags then [FlagCommand(key, v)] else [])
  }

  /** ConfigOsd.patch builds an empty stage exactly when no argument names an OSD flag. */
  lemma {:induction false} FlagStageEmpty(args: Object)
    ensures FlagStage(args) == [] <==> forall i :: 0 <= i < |args| ==> args[i].0 !in OsdFlags
    decreases |args|
  {
    if args != [] {
      var n := |args| - 1;
      FlagStageEmpty(args[..n]);
      assert forall i :: 0 <= i < n ==> args[..n][i] == args[i];
    }
  }

  /** The loop of ConfigOsd.patch. */
  method FlagCommands(args: Object) returns (commands: Stage)
    ensures commands == FlagStage(args)
  {
    commands := [];
    for i := 0 to |args|
      invariant commands == FlagStage(args[..i])
    {
      var (flag, v) := args[i];
      if flag in OsdFlags {
        var mode := if Truthy(v) then "set" else "unset";
        assert "osd " + mode == FlagCommand(flag, v).prefix;
        commands := commands + [Command("osd " + mode, [("key", Str(flag))])];
      }
      assert args[..i + 1][..i] == args[..i];
    }
    assert args[..|args|] == args;
  }

  // ------------------------------------------------------------- OsdId.patch

  /** The payload of "ids": str() of the OSD id, a byte string, in a list. */
  function Ids(osdId: int): Value {
    List([Bytes(IntText(osdId))])
  }

  /** The "osd in" / "osd out" part of OsdId.patch's stage. */
  function InOut(osdId: int, args: Object): seq<Command> {
    match Get(args, "in")
    case None => []
    case Some(v) => [Command(if Truthy(v) then "osd in" else "osd out", [("ids", Ids(osdId))])]
  }

  /** The "osd down" part of OsdId.patch's stage. */
  function Down(osdId: int, args: Object): seq<Command> {
    if Get(args, "up").Some? then [Command("osd down", [("ids", Ids(osdId))])] else []
  }

  /** The "osd reweight" part of OsdId.patch's stage. */
  function Reweight(osdId: int, args: Object): seq<Command> {
    match Get(args, "reweight")
    case None => []
    case Some(w) => [Command("osd reweight", [("id", Int(osdId)), ("weight", w)])]
  }

  /** The stage OsdId.patch builds, or the error for a request to set the OSD up. */
  function OsdPatch(osdId: int, args: Object): Result<Stage, Failure> {
    var up := Get(args, "up");
    if up.Some? && Truthy(up.value) then Err(UpNotAllowed)
    else Ok(InOut(osdId, args) + Down(osdId, args) + Reweight(osdId, args))
  }

  /** The position of a command kind in OsdId.patch's stage. */
  function Rank(prefix: string): nat {
    if prefix == "osd in" || prefix == "osd out" then 0
    else if prefix == "osd down" then 1
    else 2
  }

  /** OsdId.patch refuses exactly a true "up", and then submits nothing. */
  lemma OsdPatchRefuses(osdId: int, args: Object)
    ensures OsdPatch(osdId, args).Err? <==> Get(args, "up").Some? && Truthy(Get(args, "up").value)
    ensures OsdPatch(osdId, args).Err? ==> OsdPatch(osdId, args).error == UpNotAllowed
  {
  }

  /** OsdId.patch's stage holds at most one command of each kind: in/out first, then down, then reweight. */
  lemma OsdPatchOrder(osdId: int, args: Object)
    ensures OsdPatch(osdId, args).Ok? ==> var stage := OsdPatch(osdId, args).value;
      && |stage| <= 3
      && forall a, b :: 0 <= a < b < |stage| ==> Rank(stage[a].prefix) < Rank(stage[b].prefix)
  {
    InOutContents(osdId, args);
    DownContents(osdId, args);
    ReweightContents(osdId, args);
    var io, d, rw := InOut(osdId, args), Down(osdId, args), Reweight(osdId, args);
    assert |io| <= 1 && |d| <= 1 && |rw| <= 1;
    var stage := io + d + rw;
    forall a, b | 0 <= a < b < |stage| ensures Rank(stage[a].prefix) < Rank(stage[b].prefix) {
      if a < |io| {
        assert stage[a] in io;
        if b < |io| + |d| { assert stage[b] in d; } else { assert stage[b] in rw; }
      } else {
        assert stage[a] in d && stage[b] in rw;
      }
    }
    assert OsdPatch(osdId, args).Ok? ==> OsdPatch(osdId, args).value == stage;
  }

  lemma InOutContents(osdId: int, args: Object)
    ensures Command("osd in", [("ids", Ids(osdId))]) in InOut(osdId, args) <==> HasKey(args, "in") && Truthy(Get(args, "in").value)
    ensures Command("osd out", [("ids", Ids(osdId))]) in InOut(osdId, args) <==> HasKey(args, "in") && !Truthy(Get(args, "in").value)
    ensures forall c :: c in InOut(osdId, args) ==> c.prefix == "osd in" || c.prefix == "osd out"
  {
  }

  lemma DownContents(osdId: int, args: Object)
    ensures Command("osd down", [("ids", Ids(osdId))]) in Down(osdId, args) <==> HasKey(args, "up")
    ensures forall c :: c in Down(osdId, args) ==> c.prefix == "osd down"
  {
  }

  lemma ReweightContents(osdId: int, args: Object)
    ensures forall w :: Command("osd reweight", [("id", Int(osdId)), ("weight", w)]) in Reweight(osdId, args) <==> Get(args, "reweight") == Some(w)
    ensures forall c :: c in Reweight(osdId, args) ==> c.prefix == "osd reweight"
  {
  }

  /**
   * Which commands OsdId.patch's stage holds: "osd in" or "osd out" exactly when
   * "in" is given (in when true), "osd down" exactly when "up" is given, and
   * "osd reweight" with the given weight exactly when "reweight" is given.
   */
  lemma OsdPatchContents(osdId: int, args: Object)
    ensures OsdPatch(osdId, args).Ok? ==> var stage := OsdPatch(osdId, args).value;
      && (Command("osd in", [("ids", Ids(osdId))]) in stage <==> HasKey(args, "in") && Truthy(Get(args, "in").value))
      && (Command("osd out", [("ids", Ids(osdId))]) in stage <==> HasKey(args, "in") && !Truthy(Get(args, "in").value))
      && (Command("osd down", [("ids", Ids(osdId))]) in stage <==> HasKey(args, "up"))
      && (forall w :: Command("osd reweight", [("id", Int(osdId)), ("weight", w)]) in stage <==> Get(args, "reweight") == Some(w))
      && (forall c :: c in stage ==> c.prefix in ["osd in", "osd out", "osd down", "osd reweight"])
  {
    InOutContents(osdId, args);
    DownContents(osdId, args);
    ReweightContents(osdId, args);
    var io, d, rw := InOut(osdId, args), Down(osdId, args), Reweight(osdId, args);
    if OsdPatch(osdId, args).Ok? {
      var stage := OsdPatch(osdId, args).value;
      assert stage == io + d + rw;
      assert forall c :: c in stage <==> c in io || c in d || c in rw;
    }
  }

  // ------------------------------------------------------ OsdIdCommandId.post

  /** The pipeline OsdIdCommandId.post submits, or the reason it refuses. */
  function OsdCommandPost(osds: seq<OsdRecord>, osdId: int, command: string): (r: Result<Pipeline, Failure>)
    ensures r.Ok? <==> && GetOsdById(osds, osdId).Some?
                       && Truthy(GetOsdById(osds, osdId).value.up)
                       && command in OsdImplementedCommands
    ensures r.Ok? ==> r.value == [[Command("osd " + command, [("who", Bytes(IntText(osdId)))])]]
    ensures r.Err? ==> (r.error == UnknownOsd(osdId) <==> GetOsdById(osds, osdId).None?)
  {
    match GetOsdById(osds, osdId)
    case None => Err(UnknownOsd(osdId))
    case Some(osd) =>
      if !Truthy(osd.up) || command !in OsdImplementedCommands then Err(CommandNotAvailable(command))
      else Ok([[Command("osd " + command, [("who", Bytes(IntText(osdId)))])]])
  }

  /** An OSD that is up and alone with its id accepts every offered command. */
  lemma OsdCommandAccepted(osds: seq<OsdRecord>, osdId: int, command: string, i: nat)
    requires i < |osds| && osds[i].osd == osdId && Truthy(osds[i].up)
    requires forall j :: 0 <= j < |osds| && j != i ==> osds[j].osd != osdId
    requires command in OsdImplementedCommands
    ensures OsdCommandPost(osds, osdId, command).Ok?
  {
    OsdFound(osds, osdId, i);
  }

  // ---------------------------------------------------------------- Pool.post

  /** The arguments of Pool.post once "name" and "pg_num" are popped. */
  function PoolRest(args: Object): Object {
    Remove(Remove(args, "name"), "pg_num")
  }

  /** The pipeline Pool.post submits: create the pool, then update it. */
  function PoolPost(args: Object): Result<Pipeline, Failure> {
    var name := Get(args, "name");
    if name.None? || name.value == Null then Err(MissingName)
    else
      var pgNum := Get(Remove(args, "name"), "pg_num");
      if pgNum.None? || pgNum.value == Null then Err(MissingPgNum)
      else
        var rest := PoolRest(args);
        var create := Command("osd pool create", [("pool", name.value), ("pg_num", pgNum.value)]);
        var invalid := Disallowed(Keys(rest));
        if invalid != [] then Err(InvalidArgs(invalid))
        else Ok([[create]] + [UpdateStage(name.value, rest)])
  }

  /**
   * Pool.post submits exactly when "name" and "pg_num" are given (not null) and
   * every other key is a pool argument: "name" and "pg_num" are never rejected.
   */
  lemma PoolPostAccepts(args: Object)
    ensures PoolPost(args).Ok? <==>
      && Get(args, "name").Some? && Get(args, "name").value != Null
      && Get(args, "pg_num").Some? && Get(args, "pg_num").value != Null
      && forall k :: HasKey(args, k) && k != "name" && k != "pg_num" ==> k in PoolArgs
    ensures Get(args, "name").None? ==> PoolPost(args) == Err(MissingName)
  {
    var rest := PoolRest(args);
    RestKeys(args);
    assert Get(Remove(args, "name"), "pg_num") == Get(args, "pg_num");
    RestAllowed(rest);
  }

  /**
   * The pipeline Pool.post submits is the create stage, then the update stage of
   * the arguments other than "name" and "pg_num"; "pg_num" is not set again.
   */
  lemma PoolPostPipeline(args: Object)
    ensures PoolPost(args).Ok? ==>
      && |PoolPost(args).value| == 2
      && PoolPost(args).value[0] ==
           [Command("osd pool create", [("pool", Get(args, "name").value), ("pg_num", Get(args, "pg_num").value)])]
      && PoolPost(args).value[1] == UpdateStage(Get(args, "name").value, PoolRest(args))
      && "pg_num" !in Present(PoolProperties, PoolRest(args))
  {
    PresentSpec(PoolProperties, PoolRest(args));
    assert Get(Remove(args, "name"), "pg_num") == Get(args, "pg_num");
  }

  /**
   * The request Pool.post submits starts live, even when no pool property is given and
   * its update stage is empty: once every command has completed it is "success" when
   * every code was 0 and "failed" when one was not.
   */
  lemma PoolPostCompletes(args: Object, id: nat, events: seq<(Tag, Completion)>)
    requires PoolPost(args).Ok?
    requires Accepted(Start(id, PoolPost(args).value), events)
    requires |events| == 1 + |UpdateStage(Get(args, "name").value, PoolRest(args))|
    ensures Live(Start(id, PoolPost(args).value))
    ensures (forall k :: 0 <= k < |events| ==> events[k].1.code == 0)
      ==> Replay(Start(id, PoolPost(args).value), events).GetState() == "success"
    ensures (exists k :: 0 <= k < |events| && events[k].1.code != 0)
      ==> Replay(Start(id, PoolPost(args).value), events).GetState() == "failed"
  {
    var pipeline := PoolPost(args).value;
    PoolPostPipeline(args);
    StartLive(id, pipeline);
    assert Flatten(pipeline) == pipeline[0] + Flatten(pipeline[1..]);
    assert Flatten(pipeline[1..]) == pipeline[1] + Flatten(pipeline[2..]);
    StartSpec(id, pipeline);
    ReplayCompletes(Start(id, pipeline), events);
  }

  /** The keys left once "name" and "pg_num" are popped. */
  lemma RestKeys(args: Object)
    ensures PoolArgsOnly(PoolRest(args)) <==> forall k :: HasKey(args, k) && k != "name" && k != "pg_num" ==> k in PoolArgs
  {
  }

  /** Every key of the object is a pool argument. */
  ghost predicate PoolArgsOnly(obj: Object) {
    forall k :: HasKey(obj, k) ==> k in PoolArgs
  }

  /** The keys INVALID_POOL_ARGS rejects are none exactly when every key is a pool argument. */
  lemma RestAllowed(obj: Object)
    ensures Disallowed(Keys(obj)) == [] <==> PoolArgsOnly(obj)
  {
    DisallowedSpec(Keys(obj));
    assert forall k :: k in Keys(obj) <==> HasKey(obj, k);
  }

  // ------------------------------------------------------ PoolId.patch / delete

  /** The pipeline PoolId.patch submits: the update stage for the pool's name. */
  function PoolPatch(pools: seq<PoolRecord>, poolId: int, args: Object): (r: Result<Pipeline, Failure>)
    ensures r.Ok? <==> GetPoolById(pools, poolId).Some? && forall k :: HasKey(args, k) ==> k in PoolArgs
    ensures r.Ok? ==> r.value == [UpdateStage(GetPoolById(pools, poolId).value.poolName, args)]
    ensures GetPoolById(pools, poolId).None? ==> r == Err(UnknownPool(poolId))
  {
    match GetPoolById(pools, poolId)
    case None => Err(UnknownPool(poolId))
    case Some(pool) =>
      var invalid := Disallowed(Keys(args));
      DisallowedSpec(Keys(args));
      assert forall k :: k in Keys(args) <==> HasKey(args, k);
      if invalid != [] then Err(InvalidArgs(invalid))
      else Ok([UpdateStage(pool.poolName, args)])
  }

  /** The pipeline PoolId.delete submits: delete the pool, naming it twice and confirming. */
  function PoolDelete(pools: seq<PoolRecord>, poolId: int): (r: Result<Pipeline, Failure>)
    ensures r.Ok? <==> GetPoolById(pools, poolId).Some?
    ensures r.Ok? ==> var name := GetPoolById(pools, poolId).value.poolName;
      r.value == [[Command("osd pool delete",
                           [("pool", name), ("pool2", name), ("sure", Bytes("--yes-i-really-really-mean-it"))])]]
  {
    match GetPoolById(pools, poolId)
    case None => Err(UnknownPool(poolId))
    case Some(pool) =>
      Ok([[Command("osd pool delete",
                   [("pool", pool.poolName), ("pool2", pool.poolName), ("sure", Bytes("--yes-i-really-really-mean-it"))])]])
  }

  // -------------------------------------------------------------- submitting

  /** The end of every builder handler: submit the pipeline when it was built, answer the error otherwise. */
  method Submit(m: Module, built: Result<Pipeline, Failure>) returns (answer: Answer)
    requires m.Valid()
    modifies m
    ensures m.Valid()
    ensures built.Err? ==> answer == Error(built.error) && m.requests == old(m.requests) && m.nextId == old(m.nextId)
    ensures built.Ok? ==> answer == Submitted(old(m.nextId)) &&
                          m.States() == old(m.States()) + [Start(old(m.nextId), built.value)]
  {
    match built
    case Err(e) =>
      answer := Error(e);
    case Ok(pipeline) =>
      var id := m.SubmitRequest(pipeline);
      answer := Submitted(id);
  }

  /** ConfigOsd.patch: submit the flag commands as a single stage. */
  method ConfigOsdPatch(m: Module, args: Object) returns (answer: Answer)
    requires m.Valid()
    modifies m
    ensures m.Valid()
    ensures answer == Submitted(old(m.nextId))
    ensures m.States() == old(m.States()) + [Start(old(m.nextId), [FlagStage(args)])]
  {
    var commands := FlagCommands(args);
    answer := Submit(m, Ok([commands]));
  }

  // ------------------------------------------------------------ Request.get

  /** The answer of Request.get: each request's id mapped to its state, a later request winning. */
  function StateMap(states: seq<RequestState>): map<nat, string> {
    if states == [] then map[]
    else
      var last := states[|states| - 1];
      StateMap(states[..|states| - 1])[last.uuid := last.GetState()]
  }

  /** Every registered id is a key of Request.get's answer, and no other id is. */
  lemma {:induction false} StateMapKeys(states: seq<RequestState>)
    ensures forall id :: id in StateMap(states) <==> exists i :: 0 <= i < |states| && states[i].uuid == id
    decreases |states|
  {
    if states != [] {
      var n := |states| - 1;
      var init := states[..n];
      StateMapKeys(init);
      assert forall i :: 0 <= i < n ==> init[i] == states[i];
    }
  }

  /** With distinct ids, each id maps to its request's state. */
  lemma {:induction false} StateMapValues(states: seq<RequestState>)
    requires IdsDistinct(states)
    ensures forall i :: 0 <= i < |states| ==> states[i].uuid in StateMap(states)
    ensures forall i :: 0 <= i < |states| ==> StateMap(states)[states[i].uuid] == states[i].GetState()
    decreases |states|
  {
    if states != [] {
      var n := |states| - 1;
      var init := states[..n];
      assert forall i :: 0 <= i < n ==> init[i] == states[i];
      assert IdsDistinct(init);
      StateMapValues(init);
      forall i | 0 <= i < n ensures StateMap(states)[states[i].uuid] == states[i].GetState() {
        assert states[i].uuid != states[n].uuid;
      }
    }
  }

  /** Request.get */
  method ListStates(m: Module) returns (states: map<nat, string>)
    ensures states == StateMap(m.States())
  {
    ghost var all := m.States();
    StatesOfIndex(m.requests);
    states := map[];
    for i := 0 to |m.requests|
      invariant states == StateMap(all[..i])
    {
      var request := m.requests[i];
      states := states[request.uuid := request.State().GetState()];
      assert all[..i + 1][..i] == all[..i];
    }
    assert all[..|m.requests|] == all;
  }

  // ---------------------------------------------------------- Request.delete

  /** The requests that are not finished, in their order. */
  function Unfinished(states: seq<RequestState>): (kept: seq<RequestState>)
    ensures |kept| <= |states|
  {
    if states == [] then []
    else
      var last := states[|states| - 1];
      Unfinished(states[..|states| - 1]) + (if last.IsFinished() then [] else [last])
  }

  /** The filter of Request.delete on the request objects. */
  function KeepUnfinished(rs: seq<CommandsRequest>): (kept: seq<CommandsRequest>)
    reads rs
    ensures |kept| <= |rs|
  {
    if rs == [] then []
    else
      var last := rs[|rs| - 1];
      KeepUnfinished(rs[..|rs| - 1]) + (if last.State().IsFinished() then [] else [last])
  }

  lemma {:induction false} KeepUnfinishedStates(rs: seq<CommandsRequest>)
    ensures StatesOf(KeepUnfinished(rs)) == Unfinished(StatesOf(rs))
    decreases |rs|
  {
    if rs != [] {
      var init := rs[..|rs| - 1];
      KeepUnfinishedStates(init);
      var last := rs[|rs| - 1];
      var kept := KeepUnfinished(init);
      assert StatesOf(rs) == StatesOf(init) + [last.State()];
      assert StatesOf(rs)[..|rs| - 1] == StatesOf(init);
      assert StatesOf(rs)[|rs| - 1] == last.State();
      if !last.State().IsFinished() {
        assert (kept + [last])[..|kept + [last]| - 1] == kept;
        assert (kept + [last])[|kept|] == last;
        assert StatesOf(kept + [last]) == StatesOf(kept) + [last.State()];
      } else {
        assert KeepUnfinished(rs) == kept;
      }
    }
  }

  /** Request.delete keeps exactly the requests that are not finished. */
  lemma {:induction false} UnfinishedSpec(states: seq<RequestState>)
    ensures forall s :: s in Unfinished(states) <==> s in states && !s.IsFinished()
    decreases |states|
  {
    if states != [] {
      var n := |states| - 1;
      var init := states[..n];
      UnfinishedSpec(init);
      assert states == init + [states[n]];
      assert forall s :: s in states <==> s in init || s == states[n];
    }
  }

  /** With no finished request, Request.delete keeps the registry as it is. */
  lemma {:induction false} UnfinishedKeepsAll(states: seq<RequestState>)
    requires forall i :: 0 <= i < |states| ==> !states[i].IsFinished()
    ensures Unfinished(states) == states
    decreases |states|
  {
    if states != [] {
      var n := |states| - 1;
      var init := states[..n];
      assert forall i :: 0 <= i < n ==> init[i] == states[i];
      UnfinishedKeepsAll(init);
      assert states == init + [states[n]];
    }
  }

  /** The filter distributes over concatenation, so the kept requests keep their order. */
  lemma {:induction false} UnfinishedAppend(a: seq<RequestState>, b: seq<RequestState>)
    ensures Unfinished(a + b) == Unfinished(a) + Unfinished(b)
    decreases |b|
  {
    if b != [] {
      var init := b[..|b| - 1];
      UnfinishedAppend(a, init);
      assert (a + b)[..|a + b| - 1] == a + init;
      assert (a + b)[|a + b| - 1] == b[|b| - 1];
    } else {
      assert a + b == a;
    }
  }

  lemma DistinctSnoc(kept: seq<RequestState>, last: RequestState)
    requires IdsDistinct(kept)
    requires forall i :: 0 <= i < |kept| ==> kept[i].uuid != last.uuid
    ensures IdsDistinct(kept + [last])
  {
    var all := kept + [last];
    forall i, j | 0 <= i < j < |all| ensures all[i].uuid != all[j].uuid {
      assert all[i] == kept[i];
      if j < |kept| {
        assert all[j] == kept[j];
      }
    }
  }

  lemma {:induction false} UnfinishedDistinct(states: seq<RequestState>)
    requires IdsDistinct(states)
    ensures IdsDistinct(Unfinished(states))
    decreases |states|
  {
    if states != [] {
      var n := |states| - 1;
      var init := states[..n];
      var kept := Unfinished(init);
      assert IdsDistinct(init) by {
        assert forall i :: 0 <= i < n ==> init[i] == states[i];
      }
      UnfinishedDistinct(init);
      if !states[n].IsFinished() {
        forall i | 0 <= i < |kept| ensures kept[i].uuid != states[n].uuid {
          UnfinishedSpec(init);
          assert kept[i] in init;
          var j :| 0 <= j < n && init[j] == kept[i];
          assert states[j].uuid != states[n].uuid;
        }
        DistinctSnoc(kept, states[n]);
        assert Unfinished(states) == kept + [states[n]];
      } else {
        assert Unfinished(states) == kept + [];
      }
    }
  }

  /** Cleaning keeps the registry coherent. */
  lemma UnfinishedCoherent(states: seq<RequestState>, nextId: nat)
    requires Coherent(states, nextId)
    ensures Coherent(Unfinished(states), nextId)
  {
    UnfinishedDistinct(states);
    UnfinishedSpec(states);
    var kept := Unfinished(states);
    forall i | 0 <= i < |kept| ensures kept[i].uuid < nextId && kept[i].Valid() {
      assert kept[i] in states;
    }
  }

  /** Request.delete: drop the finished requests and answer how many were dropped. */
  method CleanFinished(m: Module) returns (removed: int)
    requires m.Valid()
    modifies m
    ensures m.Valid()
    ensures m.requests == old(KeepUnfinished(m.requests)) && m.nextId == old(m.nextId)
    ensures m.States() == Unfinished(old(m.States()))
    ensures removed == |old(m.requests)| - |m.requests| && removed >= 0
  {
    var count := |m.requests|;
    var kept := KeepUnfinished(m.requests);
    removed := count - |kept|;
    ghost var before := m.States();
    KeepUnfinishedStates(m.requests);
    UnfinishedCoherent(before, m.nextId);
    m.requests := kept;
    assert m.States() == Unfinished(before);
    assert Coherent(m.States(), m.nextId);
  }

  // ------------------------------------------------------- RequestUuid.delete

  /** The requests after removing the first one with the id. */
  function Cancel(states: seq<RequestState>, uuid: nat): seq<RequestState> {
    if states == [] then []
    else if states[0].uuid == uuid then states[1..]
    else [states[0]] + Cancel(states[1..], uuid)
  }

  /** Cancelling removes the first request with the id and keeps the others in order; with no such request it changes nothing. */
  lemma {:induction false} CancelAt(states: seq<RequestState>, uuid: nat, i: nat)
    requires i <= |states|
    requires forall j :: 0 <= j < i ==> states[j].uuid != uuid
    requires i < |states| ==> states[i].uuid == uuid
    ensures i < |states| ==> Cancel(states, uuid) == states[..i] + states[i + 1..]
    ensures i == |states| ==> Cancel(states, uuid) == states
    decreases i
  {
    if i > 0 {
      CancelAt(states[1..], uuid, i - 1);
      if i < |states| {
        assert states[..i] == [states[0]] + states[1..][..i - 1];
      }
    }
  }

  /** Without the request with the id, no request is left that owns the id or one of its tags. */
  lemma CancelRemovesId(states: seq<RequestState>, nextId: nat, uuid: nat, i: nat)
    requires Coherent(states, nextId)
    requires i < |states| && states[i].uuid == uuid
    ensures Cancel(states, uuid) == states[..i] + states[i + 1..]
    ensures forall j :: 0 <= j < |Cancel(states, uuid)| ==> Cancel(states, uuid)[j] == states[if j < i then j else j + 1]
    ensures forall s :: s in Cancel(states, uuid) ==> s.uuid != uuid
  {
    CancelAt(states, uuid, i);
    var after := Cancel(states, uuid);
    forall s | s in after ensures s.uuid != uuid {
      var j :| 0 <= j < |after| && after[j] == s;
      assert s == states[if j < i then j else j + 1];
    }
  }

  /**
   * In a coherent registry, cancelling removes the request with the id and only
   * it, keeps the registry coherent, and the cancelled request's completions are
   * dropped from then on.
   */
  lemma CancelSpec(states: seq<RequestState>, nextId: nat, uuid: nat, i: nat, index: nat, c: Completion)
    requires Coherent(states, nextId)
    requires i < |states| && states[i].uuid == uuid
    ensures Cancel(states, uuid) == states[..i] + states[i + 1..]
    ensures |Cancel(states, uuid)| + 1 == |states|
    ensures forall s :: s in Cancel(states, uuid) ==> s.uuid != uuid
    ensures Coherent(Cancel(states, uuid), nextId)
    ensures Route(Cancel(states, uuid), "command", Tag(uuid, index), c) == Cancel(states, uuid)
  {
    CancelRemovesId(states, nextId, uuid, i);
    var after := Cancel(states, uuid);
    assert IdsDistinct(after) by {
      forall a, b | 0 <= a < b < |after| ensures after[a].uuid != after[b].uuid {
        assert after[a] == states[if a < i then a else a + 1];
        assert after[b] == states[if b < i then b else b + 1];
      }
    }
    forall k: nat | k < |after| ensures !after[k].IsRunning(Tag(uuid, index)) {
      assert after[k] in after;
      RunningTagId(after[k], Tag(uuid, index));
    }
    RouteDropsUnknown(after, "command", Tag(uuid, index), c);
  }

  lemma StatesOfRemove(rs: seq<CommandsRequest>, i: nat)
    requires i < |rs|
    ensures StatesOf(rs[..i] + rs[i + 1..]) == StatesOf(rs)[..i] + StatesOf(rs)[i + 1..]
  {
    var r := rs[..i] + rs[i + 1..];
    StatesOfIndex(rs);
    StatesOfIndex(r);
    var a, b := StatesOf(r), StatesOf(rs)[..i] + StatesOf(rs)[i + 1..];
    assert |a| == |b|;
    forall j | 0 <= j < |a| ensures a[j] == b[j] {
      if j < i {
        assert r[j] == rs[j];
      } else {
        assert r[j] == rs[j + 1];
      }
    }
  }

  /** Drop the request at the index, the first one with the id. */
  method RemoveAt(m: Module, uuid: nat, index: nat)
    requires m.Valid() && index < |m.requests|
    requires index < |m.States()| && m.States()[index].uuid == uuid
    modifies m
    ensures m.Valid() && m.nextId == old(m.nextId)
    ensures m.States() == Cancel(old(m.States()), uuid)
  {
    ghost var before := m.States();
    var rest := m.requests[..index] + m.requests[index + 1..];
    StatesOfRemove(m.requests, index);
    CancelSpec(before, m.nextId, uuid, index, 0, Completion(0, "", ""));
    m.requests := rest;
    assert m.States() == Cancel(before, uuid);
    assert Coherent(m.States(), m.nextId);
  }

  /** RequestUuid.delete: remove the first request with the id; answer whether there was one. */
  method CancelRequest(m: Module, uuid: nat) returns (found: bool)
    requires m.Valid()
    modifies m
    ensures m.Valid() && m.nextId == old(m.nextId)
    ensures found <==> exists i :: 0 <= i < |old(m.States())| && old(m.States())[i].uuid == uuid
    ensures m.States() == Cancel(old(m.States()), uuid)
  {
    ghost var before := m.States();
    StatesOfIndex(m.requests);
    for index := 0 to |m.requests|
      invariant forall j :: 0 <= j < index ==> before[j].uuid != uuid
    {
      if m.requests[index].uuid == uuid {
        RemoveAt(m, uuid, index);
        return true;
      }
    }
    CancelAt(before, uuid, |before|);
    return false;
  }

  // ---------------------------------------------------------- RequestUuid.get

  /** The (command, outs, outb) triple the detail view shows for an outcome; pending ones have no output yet. */
  function Entry(o: Outcome): (string, string, string) {
    match o.result
    case None => (o.command, "", "")
    case Some(c) => (o.command, c.outs, c.outb)
  }

  function Entries(os: seq<Outcome>): (r: seq<(string, string, string)>)
    ensures |r| == |os| && forall i :: 0 <= i < |os| ==> r[i] == Entry(os[i])
  {
    seq(|os|, i requires 0 <= i < |os| => Entry(os[i]))
  }

  /** A waiting command, shown like a pending outcome: its description and no output. */
  function WaitingEntries(stages: seq<Stage>): (r: seq<(string, string, string)>)
    ensures |r| == |Flatten(stages)|
    ensures forall i :: 0 <= i < |r| ==> r[i] == (Description(Flatten(stages)[i]), "", "")
  {
    var commands := Flatten(stages);
    seq(|commands|, i requires 0 <= i < |commands| => (Description(commands[i]), "", ""))
  }

  /** The answer of RequestUuid.get. */
  datatype Detail = Detail(
    uuid: nat,
    running: seq<(string, string, string)>,
    finished: seq<(string, string, string)>,
    waiting: seq<(string, string, string)>,
    failed: seq<(string, string, string)>,
    isWaiting: bool,
    isFinished: bool,
    hasFailed: bool)

  /** The requests with the id, in order. */
  function WithUuid(states: seq<RequestState>, uuid: nat): (r: seq<RequestState>)
    ensures forall s :: s in r <==> s in states && s.uuid == uuid
    ensures (forall i :: 0 <= i < |states| ==> states[i].uuid != uuid) ==> r == []
  {
    if states == [] then []
    else (if states[0].uuid == uuid then [states[0]] else []) + WithUuid(states[1..], uuid)
  }

  lemma {:induction false} WithUuidUnique(states: seq<RequestState>, i: nat)
    requires i < |states| && IdsDistinct(states)
    ensures WithUuid(states, states[i].uuid) == [states[i]]
  {
    var tail := states[1..];
    assert forall j :: 0 <= j < |tail| ==> tail[j] == states[j + 1];
    if i > 0 {
      assert IdsDistinct(tail);
      WithUuidUnique(tail, i - 1);
    } else {
      forall j | 0 <= j < |tail| ensures tail[j].uuid != states[0].uuid {
        assert states[0].uuid != states[j + 1].uuid;
      }
    }
  }

  /** RequestUuid.get with its waiting stages shown as their commands. */
  function RequestDetail(states: seq<RequestState>, uuid: nat): Result<Detail, Failure> {
    var found := WithUuid(states, uuid);
    if |found| != 1 then Err(UnknownRequest(uuid))
    else
      var s := found[0];
      Ok(Detail(s.uuid, Entries(s.running), Entries(s.finished), WaitingEntries(s.waiting), Entries(s.failed),
                s.IsWaiting(), s.IsFinished(), s.HasFailed()))
  }

  /**
   * RequestUuid.get as written: the waiting list holds stages, which have no
   * command, so rendering it raises whenever a stage waits, and the error is
   * answered instead of the detail.
   */
  function RequestDetailAsWritten(states: seq<RequestState>, uuid: nat): Result<Detail, Failure> {
    var found := WithUuid(states, uuid);
    if |found| != 1 then Err(UnknownRequest(uuid))
    else
      var s := found[0];
      if s.waiting != [] then Err(Raised)
      else Ok(Detail(s.uuid, Entries(s.running), Entries(s.finished), [], Entries(s.failed),
                     s.IsWaiting(), s.IsFinished(), s.HasFailed()))
  }

  /**
   * In a coherent registry the detail is found exactly for a registered id and
   * shows that request: one entry per outcome in each list, one per waiting
   * command, and its three flags.
   */
  lemma RequestDetailSpec(states: seq<RequestState>, nextId: nat, uuid: nat)
    requires Coherent(states, nextId)
    ensures RequestDetail(states, uuid).Ok? <==> exists i :: 0 <= i < |states| && states[i].uuid == uuid
    ensures forall i :: 0 <= i < |states| && states[i].uuid == uuid ==>
      var s := states[i];
      var d := RequestDetail(states, uuid).value;
      && d.uuid == uuid
      && d.running == Entries(s.running) && d.finished == Entries(s.finished) && d.failed == Entries(s.failed)
      && |d.waiting| == |Flatten(s.waiting)|
      && (forall k :: 0 <= k < |d.waiting| ==> d.waiting[k] == (Description(Flatten(s.waiting)[k]), "", ""))
      && (d.isWaiting <==> s.waiting != [])
      && (d.isFinished <==> s.running == [] && s.waiting == [])
      && (d.hasFailed <==> s.failed != [])
  {
    if exists i :: 0 <= i < |states| && states[i].uuid == uuid {
      var i :| 0 <= i < |states| && states[i].uuid == uuid;
      WithUuidUnique(states, i);
      forall j | 0 <= j < |states| && states[j].uuid == uuid ensures j == i {
      }
    }
  }

  /** As written, the detail of a registered request is an error exactly while a stage of it waits. */
  lemma AsWrittenFailsWhileWaiting(states: seq<RequestState>, nextId: nat, i: nat)
    requires Coherent(states, nextId) && i < |states|
    ensures RequestDetailAsWritten(states, states[i].uuid) == Err(Raised) <==> states[i].waiting != []
    ensures states[i].waiting == [] ==> RequestDetailAsWritten(states, states[i].uuid) == RequestDetail(states, states[i].uuid)
  {
    WithUuidUnique(states, i);
  }

  /** The input that shows it: a fresh two-stage request cannot be inspected until its first stage is done. */
  lemma AsWrittenTwoStageRequest(a: Command, b: Command)
    ensures RequestDetailAsWritten([Start(0, [[a], [b]])], 0) == Err(Raised)
    ensures RequestDetail([Start(0, [[a], [b]])], 0).Ok?
    ensures RequestDetail([Start(0, [[a], [b]])], 0).value.waiting == [(Description(b), "", "")]
  {
    var s := Start(0, [[a], [b]]);
    assert WithUuid([s], 0) == [s];
    assert Flatten(s.waiting) == [b];
  }
}
