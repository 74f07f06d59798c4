/** Start-up decisions of the Rancher server (app/app.go): whether to add or
    remove the local cluster, and the alternate-command registry consulted
    before normal start-up. Initializers are named by an opaque label; the
    process arguments are a parameter. */
module RancherApp {
  import opened Wrappers
  import opened Text

  // ----------------------------------------------------------- local cluster

  datatype LocalClusterAction = AddLocalCluster | RemoveLocalCluster | LeaveLocalCluster

  /** The AddLocal branch of `addData`. */
  function LocalAction(addLocal: string, embedded: bool): (a: LocalClusterAction)
    ensures a == AddLocalCluster <==> addLocal == "true" || (addLocal == "auto" && !embedded)
    ensures a == RemoveLocalCluster <==> addLocal == "false"
  {
    if addLocal == "true" || (addLocal == "auto" && !embedded) then AddLocalCluster
    else if addLocal == "false" then RemoveLocalCluster
    else LeaveLocalCluster
  }

  /** "auto" adds the local cluster only outside embedded mode, and any value
      other than the three known ones does nothing. */
  lemma LocalActionAuto(embedded: bool, other: string)
    requires other !in {"true", "false", "auto"}
    ensures LocalAction("auto", embedded) == (if embedded then LeaveLocalCluster else AddLocalCluster)
    ensures LocalAction(other, embedded) == LeaveLocalCluster
    ensures LocalAction("true", embedded) == AddLocalCluster
  {
  }

  // ------------------------------------------------------ alternate commands

  /** The registered initializers, by name; an initializer is a label. */
  type Registry = map<string, string>

  const AltCmdPrefix := "--alt-cmd="

  /** `RegisterAlternateCommand`: a second registration under a name panics. */
  function Register(reg: Registry, name: string, initializer: string): (r: Result<Registry>)
    ensures r.Err? <==> name in reg
    ensures r.Err? ==> r.error == "alt-cmd func already registered under name \"" + name + "\""
    ensures r.Ok? ==> r.value.Keys == reg.Keys + {name} && r.value[name] == initializer
    ensures r.Ok? ==> forall n :: n in reg ==> r.value[n] == reg[n]
  {
    if name in reg then Err("alt-cmd func already registered under name \"" + name + "\"")
    else Ok(reg[name := initializer])
  }

  /** Registering a taken name leaves the first registration in force. */
  lemma RegisterKeepsFirst(reg: Registry, name: string, first: string, second: string)
    requires name !in reg
    ensures Register(reg, name, first).Ok?
    ensures Register(Register(reg, name, first).value, name, second).Err?
    ensures Register(reg, name, first).value[name] == first
  {
  }

  /** How `InitAlternateCommand` ends. */
  datatype AltOutcome =
    | Ran(initializer: string)   // an initializer was called; returns true
    | NotRun                     // returns false
    | Panicked                   // an index out of range

  predicate IsAltCmd(arg: string) {
    HasPrefix(arg, AltCmdPrefix)
  }

  /** The name an argument carries: its text between the first and second "=". */
  function NameIn(arg: string): Option<string> {
    var s := Split(arg, '=');
    if |s| < 2 then None else Some(s[1])
  }

  predicate Registered(reg: Registry, arg: string) {
    NameIn(arg).Some? && NameIn(arg).value in reg
  }

  /** `InitAlternateCommand` as written, from argument `i` on: whichever
      argument matched, the name is read from `args[1]`. */
  function InitAsWritten(reg: Registry, args: seq<string>, i: nat): (o: AltOutcome)
    requires i <= |args|
    ensures (forall k :: i <= k < |args| ==> !IsAltCmd(args[k])) ==> o == NotRun
    ensures o == Panicked ==> |args| < 2 || NameIn(args[1]).None?
    ensures o.Ran? ==> |args| >= 2 && NameIn(args[1]).Some? && NameIn(args[1]).value in reg
                       && o.initializer == reg[NameIn(args[1]).value]
    decreases |args| - i
  {
    if i == |args| then NotRun
    else if !IsAltCmd(args[i]) then InitAsWritten(reg, args, i + 1)
    else if |args| < 2 || NameIn(args[1]).None? then Panicked
    else if NameIn(args[1]).value in reg then Ran(reg[NameIn(args[1]).value])
    else InitAsWritten(reg, args, i + 1)
  }

  /** `InitAlternateCommand` as intended: the name comes from the matching
      argument, so the call cannot go out of range. */
  function Init(reg: Registry, args: seq<string>, i: nat): (o: AltOutcome)
    requires i <= |args|
    ensures o != Panicked
    ensures o == NotRun <==> forall k :: i <= k < |args| && IsAltCmd(args[k]) ==> !Registered(reg, args[k])
    ensures o.Ran? ==> exists k :: i <= k < |args| && IsAltCmd(args[k]) && Registered(reg, args[k])
                                   && o.initializer == reg[NameIn(args[k]).value]
                                   && forall j :: i <= j < k && IsAltCmd(args[j]) ==> !Registered(reg, args[j])
    decreases |args| - i
  {
    if i == |args| then NotRun
    else if !IsAltCmd(args[i]) then Init(reg, args, i + 1)
    else
      AltCmdHasName(args[i]);
      if NameIn(args[i]).value in reg then Ran(reg[NameIn(args[i]).value])
      else Init(reg, args, i + 1)
  }

  /** Every "--alt-cmd=" argument carries a name, maybe an empty one. */
  lemma AltCmdHasName(arg: string)
    requires IsAltCmd(arg)
    ensures NameIn(arg).Some?
  {
    assert arg == "--alt-cmd" + ['='] + arg[|AltCmdPrefix|..];
    assert '=' !in "--alt-cmd";
    SplitJoined("--alt-cmd", '=', arg[|AltCmdPrefix|..]);
  }

  /** As written, the outcome depends on nothing but whether some argument
      matches and what `args[1]` holds. */
  lemma {:induction false} InitAsWrittenClosedForm(reg: Registry, args: seq<string>, i: nat)
    requires i <= |args|
    ensures (forall k :: i <= k < |args| ==> !IsAltCmd(args[k])) ==> InitAsWritten(reg, args, i) == NotRun
    ensures (exists k :: i <= k < |args| && IsAltCmd(args[k])) ==>
              InitAsWritten(reg, args, i) ==
                if |args| < 2 || NameIn(args[1]).None? then Panicked
                else if NameIn(args[1]).value in reg then Ran(reg[NameIn(args[1]).value])
                else NotRun
    decreases |args| - i
  {
    if i < |args| {
      InitAsWrittenClosedForm(reg, args, i + 1);
      if !IsAltCmd(args[i]) {
        assert (exists k :: i <= k < |args| && IsAltCmd(args[k])) ==> (exists k :: i + 1 <= k < |args| && IsAltCmd(args[k]));
      } else if !(|args| < 2 || NameIn(args[1]).None?) && NameIn(args[1]).value !in reg {
        if exists k :: i + 1 <= k < |args| && IsAltCmd(args[k]) {
        } else {
          assert InitAsWritten(reg, args, i + 1) == NotRun;
        }
      }
    }
  }

  /** When the alt-cmd argument is the first argument after the program
      name and the only one, the two versions agree. */
  lemma {:induction false} InitAgreesOnFirstArgument(reg: Registry, args: seq<string>)
    requires |args| >= 2 && IsAltCmd(args[1])
    requires forall k :: 0 <= k < |args| && k != 1 ==> !IsAltCmd(args[k])
    ensures InitAsWritten(reg, args, 0) == Init(reg, args, 0)
  {
    InitAsWrittenClosedForm(reg, args, 0);
    AltCmdHasName(args[1]);
    assert !IsAltCmd(args[0]);
    InitAfterLast(reg, args, 2);
    assert Init(reg, args, 1) == (if NameIn(args[1]).value in reg then Ran(reg[NameIn(args[1]).value]) else Init(reg, args, 2));
  }

  lemma {:induction false} InitAfterLast(reg: Registry, args: seq<string>, i: nat)
    requires i <= |args|
    requires forall k :: i <= k < |args| ==> !IsAltCmd(args[k])
    ensures Init(reg, args, i) == NotRun
    decreases |args| - i
  {
    if i < |args| {
      InitAfterLast(reg, args, i + 1);
    }
  }

  /** "--alt-cmd=<name>" carries <name> when the name has no "=". */
  lemma AltCmdName(name: string)
    requires '=' !in name
    ensures IsAltCmd(AltCmdPrefix + name)
    ensures NameIn(AltCmdPrefix + name) == Some(name)
  {
    assert AltCmdPrefix + name == "--alt-cmd" + ['='] + name;
    SplitJoined("--alt-cmd", '=', name);
  }

  /** "rancher --debug --alt-cmd=x" with x registered: as written the name
      is read from "--debug", which has no "=", and the lookup panics; as
      intended x's initializer runs. */
  lemma InitReadsWrongArgument(init: string)
    ensures var args := ["rancher", "--debug", AltCmdPrefix + "x"];
            && InitAsWritten(map["x" := init], args, 0) == Panicked
            && Init(map["x" := init], args, 0) == Ran(init)
  {
    var args := ["rancher", "--debug", AltCmdPrefix + "x"];
    var reg := map["x" := init];
    AltCmdName("x");
    assert !IsAltCmd(args[0]) && !IsAltCmd(args[1]);
    assert '=' !in args[1];
    assert InitAsWritten(reg, args, 2) == Panicked;
  }

  /** "rancher --alt-cmd=x --alt-cmd=y" with only y registered: the name
      read is always x, so as written nothing runs; as intended y runs. */
  lemma InitIgnoresLaterArguments(init: string)
    ensures var args := ["rancher", AltCmdPrefix + "x", AltCmdPrefix + "y"];
            && InitAsWritten(map["y" := init], args, 0) == NotRun
            && Init(map["y" := init], args, 0) == Ran(init)
  {
    var args := ["rancher", AltCmdPrefix + "x", AltCmdPrefix + "y"];
    var reg := map["y" := init];
    AltCmdName("x");
    AltCmdName("y");
    assert !IsAltCmd(args[0]);
    InitAsWrittenClosedForm(reg, args, 0);
    assert Init(reg, args, 2) == Ran(init);
    assert Init(reg, args, 1) == Init(reg, args, 2);
  }
}
