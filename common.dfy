/**
 * The helpers shared by the request pipeline and the HTTP handlers: the constant
 * tables, the rendering of a command as text (HUMANIFY), the validation of pool
 * arguments (INVALID_POOL_ARGS) and the pool-update stage (POOL_UPDATE_COMMANDS).
 */
module Common {
  import opened Json

  /** The OSD flags that `osd set` / `osd unset` accept. */
  const OsdFlags: seq<string> := [
    "pause", "noup", "nodown", "noout", "noin", "nobackfill",
    "norecover", "noscrub", "nodeep-scrub"
  ]

  /** The commands an OSD that is up accepts through the API. */
  const OsdImplementedCommands: seq<string> := ["scrub", "deep_scrub", "repair"]

  /** The variables `osd pool set` accepts. */
  const PoolProperties: seq<string> := [
    "size", "min_size", "crash_replay_interval", "pg_num",
    "pgp_num", "crush_ruleset", "hashpspool"
  ]

  /** The quota arguments, each with the field `osd pool set-quota` calls it. */
  const PoolQuotaProperties: seq<(string, string)> := [
    ("quota_max_bytes", "max_bytes"),
    ("quota_max_objects", "max_objects")
  ]

  /** Every argument key a pool request may carry: the properties, then the quota names. */
  const PoolArgs: seq<string> := PoolProperties + ["quota_max_bytes", "quota_max_objects"]

  /** A command payload: its "prefix" entry, and its other entries in iteration order. */
  datatype Command = Command(prefix: string, args: Object)

  /** Commands meant to run in parallel. */
  type Stage = seq<Command>

  /** Stages meant to run one after the other. */
  type Pipeline = seq<Stage>

  // ---------------------------------------------------------------- HUMANIFY

  function Piece(entry: (string, Value)): string {
    entry.0 + "=" + Text(entry.1)
  }

  /** The "key=value" pieces of the entries not keyed "prefix", in order. */
  function Pieces(args: Object): seq<string> {
    if args == [] then []
    else (if args[0].0 != "prefix" then [Piece(args[0])] else []) + Pieces(args[1..])
  }

  /** sep.join(parts) */
  function Join(sep: string, parts: seq<string>): string {
    if parts == [] then ""
    else if |parts| == 1 then parts[0]
    else parts[0] + sep + Join(sep, parts[1..])
  }

  /** The text HUMANIFY renders for a command: the prefix and the pieces, joined by spaces. */
  function Description(c: Command): string {
    Join(" ", [c.prefix] + Pieces(c.args))
  }

  /** Each part preceded by one space. */
  function Spaced(parts: seq<string>): string {
    if parts == [] then "" else " " + parts[0] + Spaced(parts[1..])
  }

  lemma {:induction false} JoinAfterHead(head: string, parts: seq<string>)
    ensures Join(" ", [head] + parts) == head + Spaced(parts)
    decreases |parts|
  {
    if parts != [] {
      JoinAfterHead(parts[0], parts[1..]);
      assert ([head] + parts)[1..] == parts == [parts[0]] + parts[1..];
    }
  }

  lemma {:induction false} PiecesSnoc(args: Object, entry: (string, Value))
    ensures Pieces(args + [entry]) == Pieces(args) + (if entry.0 != "prefix" then [Piece(entry)] else [])
  {
    if args != [] {
      PiecesSnoc(args[1..], entry);
      assert (args + [entry])[1..] == args[1..] + [entry];
    }
  }

  /** One piece per entry that is not keyed "prefix", and nothing else. */
  lemma {:induction false} PiecesSpec(args: Object)
    ensures |Pieces(args)| <= |args|
    ensures forall i :: 0 <= i < |args| && args[i].0 != "prefix" ==> Piece(args[i]) in Pieces(args)
    ensures forall p :: p in Pieces(args) ==>
      exists i :: 0 <= i < |args| && args[i].0 != "prefix" && p == Piece(args[i])
    ensures Pieces(args) == [] <==> forall i :: 0 <= i < |args| ==> args[i].0 == "prefix"
  {
    if args != [] {
      PiecesSpec(args[1..]);
      forall p | p in Pieces(args)
        ensures exists i :: 0 <= i < |args| && args[i].0 != "prefix" && p == Piece(args[i])
      {
        if p !in Pieces(args[1..]) {
          assert args[0].0 != "prefix" && p == Piece(args[0]);
        } else {
          var j :| 0 <= j < |args[1..]| && args[1..][j].0 != "prefix" && p == Piece(args[1..][j]);
          assert args[j + 1] == args[1..][j];
        }
      }
      forall i | 0 <= i < |args| && args[i].0 != "prefix" ensures Piece(args[i]) in Pieces(args) {
        if i > 0 {
          assert args[i] == args[1..][i - 1];
        }
      }
    }
  }

  /**
   * HUMANIFY's text starts with the prefix and continues with " key=value" for each
   * entry that is not the prefix; it is exactly the prefix iff there is no such entry.
   */
  lemma DescriptionShape(c: Command)
    ensures Description(c) == c.prefix + Spaced(Pieces(c.args))
    ensures |c.prefix| <= |Description(c)| && Description(c)[..|c.prefix|] == c.prefix
    ensures Description(c) == c.prefix <==> forall i :: 0 <= i < |c.args| ==> c.args[i].0 == "prefix"
  {
    JoinAfterHead(c.prefix, Pieces(c.args));
    PiecesSpec(c.args);
    assert (c.prefix + Spaced(Pieces(c.args)))[..|c.prefix|] == c.prefix;
    if Pieces(c.args) != [] {
      assert |Spaced(Pieces(c.args))| > 0;
    }
  }

  /** HUMANIFY(command) */
  method Humanify(command: Command) returns (text: string)
    ensures text == Description(command)
  {
    var out := [command.prefix];
    for i := 0 to |command.args|
      invariant out == [command.prefix] + Pieces(command.args[..i])
    {
      var entry := command.args[i];
      if entry.0 != "prefix" {
        out := out + [entry.0 + "=" + Text(entry.1)];
      }
      PiecesSnoc(command.args[..i], entry);
      assert command.args[..i + 1] == command.args[..i] + [entry];
    }
    assert command.args[..|command.args|] == command.args;
    text := Join(" ", out);
  }

  // ------------------------------------------------------- INVALID_POOL_ARGS

  /** The keys, in order, that are neither a pool property nor a quota name. */
  function Disallowed(keys: seq<string>): seq<string> {
    if keys == [] then []
    else
      var last := keys[|keys| - 1];
      Disallowed(keys[..|keys| - 1]) + (if last !in PoolArgs then [last] else [])
  }

  /** The rejected keys are exactly the keys not allowed, and there are none iff every key is allowed. */
  lemma {:induction false} DisallowedSpec(keys: seq<string>)
    ensures |Disallowed(keys)| <= |keys|
    ensures forall k :: k in Disallowed(keys) <==> k in keys && k !in PoolArgs
    ensures Disallowed(keys) == [] <==> forall k :: k in keys ==> k in PoolArgs
  {
    if keys != [] {
      var init := keys[..|keys| - 1];
      DisallowedSpec(init);
      assert keys == init + [keys[|keys| - 1]];
    }
  }

  /** INVALID_POOL_ARGS(args) */
  method InvalidPoolArgs(args: Object) returns (invalid: seq<string>)
    ensures invalid == Disallowed(Keys(args))
  {
    invalid := [];
    for i := 0 to |args|
      invariant invalid == Disallowed(Keys(args)[..i])
    {
      var arg := args[i].0;
      if arg !in PoolArgs {
        invalid := invalid + [arg];
      }
      assert Keys(args)[..i + 1][..i] == Keys(args)[..i];
    }
    assert Keys(args)[..|args|] == Keys(args);
  }

  // ---------------------------------------------------- POOL_UPDATE_COMMANDS

  function SetCommand(poolName: Value, variable: string, val: Value): Command {
    Command("osd pool set", [("pool", poolName), ("var", Bytes(variable)), ("val", val)])
  }

  function QuotaCommand(poolName: Value, field: string, val: Value): Command {
    Command("osd pool set-quota", [("pool", poolName), ("field", Bytes(field)), ("val", Bytes(Text(val)))])
  }

  /** The properties of props that args carries, in the order of props. */
  function Present(props: seq<string>, args: Object): seq<string> {
    if props == [] then []
    else
      var last := props[|props| - 1];
      Present(props[..|props| - 1], args) + (if HasKey(args, last) then [last] else [])
  }

  /** One `osd pool set` per property of props that args carries, in the order of props. */
  function SetCommands(poolName: Value, args: Object, props: seq<string>): Stage {
    if props == [] then []
    else
      var last := props[|props| - 1];
      SetCommands(poolName, args, props[..|props| - 1]) +
        (if HasKey(args, last) then [SetCommand(poolName, last, Get(args, last).value)] else [])
  }

  /** One `osd pool set-quota` per quota argument that args carries, under its renamed field. */
  function QuotaCommands(poolName: Value, args: Object, quotas: seq<(string, string)>): Stage {
    if quotas == [] then []
    else
      var last := quotas[|quotas| - 1];
      QuotaCommands(poolName, args, quotas[..|quotas| - 1]) +
        (if HasKey(args, last.0) then [QuotaCommand(poolName, last.1, Get(args, last.0).value)] else [])
  }

  /** The one stage POOL_UPDATE_COMMANDS builds. */
  function UpdateStage(poolName: Value, args: Object): Stage {
    SetCommands(poolName, args, PoolProperties) + QuotaCommands(poolName, args, PoolQuotaProperties)
  }

  /** POOL_UPDATE_COMMANDS(pool_name, args) */
  method PoolUpdateCommands(poolName: Value, args: Object) returns (commands: Pipeline)
    ensures commands == [UpdateStage(poolName, args)]
  {
    var sets := SetLoop(poolName, args, PoolProperties);
    var quotas := QuotaLoop(poolName, args, PoolQuotaProperties);
    commands := [sets + quotas];
  }

  /** The first loop of POOL_UPDATE_COMMANDS: one `osd pool set` per property args carries. */
  method SetLoop(poolName: Value, args: Object, props: seq<string>) returns (stage: Stage)
    ensures stage == SetCommands(poolName, args, props)
  {
    stage := [];
    for i := 0 to |props|
      invariant stage == SetCommands(poolName, args, props[..i])
    {
      var variable := props[i];
      if HasKey(args, variable) {
        stage := stage + [SetCommand(poolName, variable, Get(args, variable).value)];
      }
      assert props[..i + 1][..i] == props[..i];
    }
    assert props[..|props|] == props;
  }

  /** The second loop of POOL_UPDATE_COMMANDS: one `osd pool set-quota` per quota argument args carries. */
  method QuotaLoop(poolName: Value, args: Object, quotas: seq<(string, string)>) returns (stage: Stage)
    ensures stage == QuotaCommands(poolName, args, quotas)
  {
    stage := [];
    for j := 0 to |quotas|
      invariant stage == QuotaCommands(poolName, args, quotas[..j])
    {
      var (variable, field) := quotas[j];
      if HasKey(args, variable) {
        stage := stage + [QuotaCommand(poolName, field, Get(args, variable).value)];
      }
      assert quotas[..j + 1][..j] == quotas[..j];
    }
    assert quotas[..|quotas|] == quotas;
  }

  /** A property is present iff args carries it and props lists it; the order is that of props. */
  lemma {:induction false} PresentSpec(props: seq<string>, args: Object)
    ensures forall v :: v in Present(props, args) <==> v in props && HasKey(args, v)
    ensures |Present(props, args)| <= |props|
  {
    if props != [] {
      PresentSpec(props[..|props| - 1], args);
      assert props == props[..|props| - 1] + [props[|props| - 1]];
    }
  }

  /** The set commands are, in order, one per present property, carrying that property's value. */
  lemma {:induction false} SetCommandsSpec(poolName: Value, args: Object, props: seq<string>)
    ensures |SetCommands(poolName, args, props)| == |Present(props, args)|
    ensures forall i :: 0 <= i < |Present(props, args)| ==>
      var v := Present(props, args)[i];
      HasKey(args, v) && SetCommands(poolName, args, props)[i] == SetCommand(poolName, v, Get(args, v).value)
  {
    if props != [] {
      SetCommandsSpec(poolName, args, props[..|props| - 1]);
      PresentSpec(props[..|props| - 1], args);
    }
  }

  /** The quota names that args carries, in the order of quotas. */
  function PresentQuotas(quotas: seq<(string, string)>, args: Object): seq<(string, string)> {
    if quotas == [] then []
    else
      var last := quotas[|quotas| - 1];
      PresentQuotas(quotas[..|quotas| - 1], args) + (if HasKey(args, last.0) then [last] else [])
  }

  /** A quota entry is present iff quotas lists it and args carries its key; the order is that of quotas. */
  lemma {:induction false} PresentQuotasSpec(quotas: seq<(string, string)>, args: Object)
    ensures forall q :: q in PresentQuotas(quotas, args) <==> q in quotas && HasKey(args, q.0)
    ensures |PresentQuotas(quotas, args)| <= |quotas|
  {
    if quotas != [] {
      PresentQuotasSpec(quotas[..|quotas| - 1], args);
      assert quotas == quotas[..|quotas| - 1] + [quotas[|quotas| - 1]];
    }
  }

  /** The set-quota commands are, in order, one per present quota entry, under its renamed field. */
  lemma {:induction false} QuotaCommandsSpec(poolName: Value, args: Object, quotas: seq<(string, string)>)
    ensures |QuotaCommands(poolName, args, quotas)| == |PresentQuotas(quotas, args)|
    ensures forall i :: 0 <= i < |PresentQuotas(quotas, args)| ==>
      var q := PresentQuotas(quotas, args)[i];
      q in quotas && HasKey(args, q.0) &&
      QuotaCommands(poolName, args, quotas)[i] == QuotaCommand(poolName, q.1, Get(args, q.0).value)
  {
    if quotas != [] {
      QuotaCommandsSpec(poolName, args, quotas[..|quotas| - 1]);
    }
  }

  /** Every quota key that args carries gets its `osd pool set-quota`, with the renamed field and the stringified value. */
  lemma QuotaCommandsComplete(poolName: Value, args: Object, quotas: seq<(string, string)>)
    ensures forall q :: q in quotas && HasKey(args, q.0) ==>
      QuotaCommand(poolName, q.1, Get(args, q.0).value) in QuotaCommands(poolName, args, quotas)
  {
    PresentQuotasSpec(quotas, args);
    QuotaCommandsSpec(poolName, args, quotas);
    forall q | q in quotas && HasKey(args, q.0)
      ensures QuotaCommand(poolName, q.1, Get(args, q.0).value) in QuotaCommands(poolName, args, quotas)
    {
      var present := PresentQuotas(quotas, args);
      assert q in present;
      var i :| 0 <= i < |present| && present[i] == q;
      assert QuotaCommands(poolName, args, quotas)[i] == QuotaCommand(poolName, q.1, Get(args, q.0).value);
    }
  }

  /** Keys other than the pool arguments do not change the update stage. */
  lemma UpdateStageIgnoresOtherKeys(poolName: Value, a: Object, b: Object)
    requires forall k :: k in PoolArgs ==> Get(a, k) == Get(b, k)
    ensures UpdateStage(poolName, a) == UpdateStage(poolName, b)
  {
    SetCommandsAgree(poolName, a, b, PoolProperties);
    QuotaCommandsAgree(poolName, a, b, PoolQuotaProperties);
  }

  lemma {:induction false} SetCommandsAgree(poolName: Value, a: Object, b: Object, props: seq<string>)
    requires forall k :: k in props ==> Get(a, k) == Get(b, k)
    ensures SetCommands(poolName, a, props) == SetCommands(poolName, b, props)
  {
    if props != [] {
      SetCommandsAgree(poolName, a, b, props[..|props| - 1]);
    }
  }

  lemma {:induction false} QuotaCommandsAgree(poolName: Value, a: Object, b: Object, quotas: seq<(string, string)>)
    requires forall q :: q in quotas ==> Get(a, q.0) == Get(b, q.0)
    ensures QuotaCommands(poolName, a, quotas) == QuotaCommands(poolName, b, quotas)
  {
    if quotas != [] {
      QuotaCommandsAgree(poolName, a, b, quotas[..|quotas| - 1]);
    }
  }
}
