/**
 * The command-composition layer: how an ad-hoc `ansible` call, an
 * `ansible-playbook` call and an `ansible-inventory` call are assembled from
 * the settings. Launching the process is abstracted away: every operation
 * returns the invocation (program and argument vector) it would launch.
 */
module Ansible {
  import opened Wrappers
  import opened Settings

  /** One launch of an external program: its name and its argument vector. */
  datatype Invocation = Invocation(program: string, args: seq<string>)

  /** A playbook written to a fresh temporary file before the launch. */
  datatype SavedFile = SavedFile(path: string, contents: string)

  /** Everything a command does to the outside world: the files it writes, then the one call it makes. */
  datatype Launch = Launch(invocation: Invocation, written: seq<SavedFile>)

  // ---------------------------------------------------------------------------
  // Verbosity
  // ---------------------------------------------------------------------------

  /** `n` copies of `c`. */
  function Repeat(c: char, n: nat): (r: string)
    ensures |r| == n
    ensures forall i :: 0 <= i < n ==> r[i] == c
  {
    if n == 0 then [] else Repeat(c, n - 1) + [c]
  }

  /** A verbosity flag the external tools accept: `-v`, `-vv`, `-vvv` or `-vvvv`. */
  predicate IsVerboseFlag(s: string) {
    2 <= |s| <= 5 && s[0] == '-' && forall i :: 1 <= i < |s| ==> s[i] == 'v'
  }

  /**
   * The flag for `verbose` occurrences of `-v`: none at 0, `-` followed by
   * `verbose` letters `v` for 1 to 4, and none again above 4.
   */
  function VerboseArgument(verbose: nat): (r: Option<string>)
    ensures r.None? <==> verbose == 0 || verbose > 4
    ensures r.Some? ==> |r.value| == verbose + 1 && r.value[0] == '-'
    ensures r.Some? ==> forall i :: 1 <= i <= verbose ==> r.value[i] == 'v'
    ensures r.Some? ==> IsVerboseFlag(r.value)
  {
    if verbose == 0 then None
    else if 1 <= verbose <= 4 then Some("-" + Repeat('v', verbose))
    else None
  }

  /** Every verbosity flag is produced by exactly one count: its number of `v`s. */
  lemma VerboseFlagRoundTrip(flag: string)
    requires IsVerboseFlag(flag)
    ensures VerboseArgument(|flag| - 1) == Some(flag)
  {
    var r := VerboseArgument(|flag| - 1);
    assert r.Some?;
    assert |r.value| == |flag|;
    assert forall i :: 0 <= i < |flag| ==> r.value[i] == flag[i];
    assert r.value == flag;
  }

  // ---------------------------------------------------------------------------
  // Parameter encoding (the `-a` argument)
  // ---------------------------------------------------------------------------

  /**
   * The text one parameter contributes to the `-a` argument: nothing for an
   * empty name, `name="value" ` for a non-empty value, `name ` otherwise.
   * Values are wrapped in literal quotes and not escaped.
   */
  function EncodeParam(name: string, value: string): (t: string)
    ensures t == "" <==> name == ""
    ensures name != "" ==> |t| > |name| && t[..|name|] == name && t[|t| - 1] == ' '
    ensures name != "" && value != "" ==> |t| == |name| + |value| + 4
    ensures name != "" && value != "" ==> t[|name| + 2..|t| - 2] == value
    ensures name != "" && value == "" ==> |t| == |name| + 1
  {
    if name != "" && value != "" then name + "=\"" + value + "\" "
    else if name != "" then name + " "
    else ""
  }

  /** The tokens the parameters emit when their keys are visited in `order`. */
  function EntryTokens(parameters: map<string, string>, order: seq<string>): (ts: seq<string>)
    requires forall i :: 0 <= i < |order| ==> order[i] in parameters
    ensures |ts| <= |order|
    ensures forall t :: t in ts ==> t != ""
  {
    if order == [] then []
    else
      var k := order[|order| - 1];
      EntryTokens(parameters, order[..|order| - 1]) + (if k == "" then [] else [EncodeParam(k, parameters[k])])
  }

  /** Visiting one more key appends exactly that key's token to the parameter text. */
  lemma EntryTextStep(parameters: map<string, string>, order: seq<string>, name: string)
    requires forall i :: 0 <= i < |order| ==> order[i] in parameters
    requires name in parameters
    ensures Concat(EntryTokens(parameters, order + [name]))
         == Concat(EntryTokens(parameters, order)) + EncodeParam(name, parameters[name])
  {
    assert (order + [name])[..|order|] == order;
    var ts := EntryTokens(parameters, order);
    if name != "" {
      assert (ts + [EncodeParam(name, parameters[name])])[..|ts|] == ts;
    } else {
      assert ts + [] == ts;
    }
  }

  /** The concatenation of a sequence of strings. */
  function Concat(ts: seq<string>): string {
    if ts == [] then "" else Concat(ts[..|ts| - 1]) + ts[|ts| - 1]
  }

  /** An `-a` argument: the introducer `-a ` followed by the parameter text. */
  predicate IsActionArgument(s: string) {
    |s| >= 3 && s[..3] == "-a "
  }

  /**
   * The single `-a` argument for the parameters visited in `order`, or none
   * when no token was emitted.
   */
  function ActionArgument(parameters: map<string, string>, order: seq<string>): (a: Option<string>)
    requires forall i :: 0 <= i < |order| ==> order[i] in parameters
    ensures a.Some? ==> IsActionArgument(a.value) && a.value[3..] == Concat(EntryTokens(parameters, order))
    ensures a.None? <==> Concat(EntryTokens(parameters, order)) == ""
  {
    var text := Concat(EntryTokens(parameters, order));
    if text == "" then None else Some("-a " + text)
  }

  /** The `-a` introducer before a non-empty parameter text; nothing before an empty one. */
  function Introduced(text: string): string {
    if text == "" then "" else "-a " + text
  }

  /** Appending one token to the parameter text, with the introducer added before the first one. */
  lemma IntroducerStep(text: string, token: string)
    ensures token != "" ==> Introduced(text + token) == (if text == "" then "-a " else Introduced(text)) + token
    ensures token == "" ==> Introduced(text + token) == Introduced(text)
  {
    if token == "" {
      assert text + token == text;
    } else if text == "" {
      assert text + token == token;
    } else {
      assert "-a " + (text + token) == ("-a " + text) + token;
    }
  }

  /**
   * `order` visits every key of `keys` exactly once: one iteration order of a
   * hash map with those keys.
   */
  ghost predicate Enumerates(order: seq<string>, keys: set<string>) {
    && multiset(order) == multiset(keys)
    && forall i :: 0 <= i < |order| ==> order[i] in keys
  }

  /** Visiting one more, not yet visited key extends an enumeration by that key. */
  lemma EnumeratesAppend(order: seq<string>, keys: set<string>, name: string)
    requires Enumerates(order, keys) && name !in keys
    ensures Enumerates(order + [name], keys + {name})
  {
    assert multiset(keys + {name}) == multiset(keys) + multiset{name};
  }

  /** The keys an enumeration visits are exactly the enumerated ones. */
  lemma EnumeratesMembers(order: seq<string>, keys: set<string>)
    requires Enumerates(order, keys)
    ensures forall k :: k in order <==> k in keys
  {
    forall k | k in keys ensures k in order {
      assert k in multiset(keys);
    }
  }

  // ---------------------------------------------------------------------------
  // Argument vectors
  // ---------------------------------------------------------------------------

  /** The pieces an ad-hoc `ansible` argument vector is made of. */
  datatype AdhocParts = AdhocParts(
    verboseFlag: Option<string>,
    inventory: Option<string>,
    needsBecome: bool,
    moduleName: string,
    action: Option<string>,
    target: string)

  /** The pieces an `ansible-playbook` argument vector is made of. */
  datatype PlaybookParts = PlaybookParts(
    verboseFlag: Option<string>,
    inventory: Option<string>,
    paths: seq<string>)

  /** An optional single argument. */
  function OptionalArg(o: Option<string>): seq<string> {
    if o.Some? then [o.value] else []
  }

  /** `--inventory <path>` when an inventory is configured. */
  function InventoryArgs(inventory: Option<string>): seq<string> {
    if inventory.Some? then ["--inventory", inventory.value] else []
  }

  /** The privilege-escalation pair `-K -b` (ask for the password, then become), or nothing. */
  function BecomeArgs(needsBecome: bool): seq<string> {
    if needsBecome then ["-K", "-b"] else []
  }

  /** `-m <module>` for a non-empty module name; nothing for the empty name of a raw command. */
  function ModuleArgs(moduleName: string): seq<string> {
    if moduleName != "" then ["-m", moduleName] else []
  }

  /** The host pattern, or `all` when none is given. */
  function Target(hostPattern: Option<string>): string {
    hostPattern.GetOr("all")
  }

  /**
   * The ad-hoc argument vector, in its fixed order: verbosity flag,
   * inventory, `-K -b`, `-m <module>` (only for a non-empty module), the `-a`
   * argument and, always last, the target.
   */
  function AdhocArgv(p: AdhocParts): (args: seq<string>)
    ensures |args| > 0 && args[|args| - 1] == p.target
  {
    OptionalArg(p.verboseFlag) + InventoryArgs(p.inventory) + BecomeArgs(p.needsBecome)
      + ModuleArgs(p.moduleName) + OptionalArg(p.action) + [p.target]
  }

  /** The options before the `-a` argument of an ad-hoc call: verbosity flag, inventory, `-K -b`, `-m <module>`. */
  function AdhocFlags(settings: ClusterSettings, command: string, needsBecome: bool): seq<string> {
    OptionalArg(VerboseArgument(settings.verbose)) + InventoryArgs(settings.inventory)
      + BecomeArgs(needsBecome) + ModuleArgs(command)
  }

  /** The playbook argument vector: verbosity flag, `-K`, inventory, then one path per playbook. */
  function PlaybookArgv(p: PlaybookParts): seq<string> {
    OptionalArg(p.verboseFlag) + ["-K"] + InventoryArgs(p.inventory) + p.paths
  }

  /** The ad-hoc call a command with these fields makes, its parameters visited in `order`. */
  function AdhocInvocation(
    settings: ClusterSettings, command: string, needsBecome: bool, hostPattern: Option<string>,
    parameters: map<string, string>, order: seq<string>): Invocation
    requires forall i :: 0 <= i < |order| ==> order[i] in parameters
  {
    Invocation("ansible", AdhocArgv(AdhocParts(
      VerboseArgument(settings.verbose), settings.inventory, needsBecome, command,
      ActionArgument(parameters, order), Target(hostPattern))))
  }

  /**
   * The shape of every ad-hoc call, whatever the parameter order: `ansible`,
   * the options, at most one `-a` argument, and the target last; no `-a`
   * argument at all without parameters.
   */
  lemma AdhocInvocationShape(
    settings: ClusterSettings, command: string, needsBecome: bool, hostPattern: Option<string>,
    parameters: map<string, string>, order: seq<string>)
    requires Enumerates(order, parameters.Keys)
    ensures var inv := AdhocInvocation(settings, command, needsBecome, hostPattern, parameters, order);
      var flags := AdhocFlags(settings, command, needsBecome);
      && inv.program == "ansible"
      && |flags| < |inv.args| <= |flags| + 2
      && inv.args[..|flags|] == flags
      && inv.args[|inv.args| - 1] == Target(hostPattern)
      && (parameters == map[] ==> |inv.args| == |flags| + 1)
  {
    var flags := AdhocFlags(settings, command, needsBecome);
    var action := ActionArgument(parameters, order);
    var args := AdhocInvocation(settings, command, needsBecome, hostPattern, parameters, order).args;
    var tail := OptionalArg(action) + [Target(hostPattern)];
    assert args == flags + OptionalArg(action) + [Target(hostPattern)];
    assert args == flags + tail;
    assert args[..|flags|] == flags;
    assert |tail| == |OptionalArg(action)| + 1;
    if parameters == map[] {
      assert |order| == |multiset(order)| == 0;
    }
  }

  /** The files written for `playbooks`, playbook `i` to `tempPaths[i]`. */
  function SavedFiles(playbooks: seq<AnsiblePlaybook>, tempPaths: seq<string>): seq<SavedFile>
    requires |tempPaths| >= |playbooks|
  {
    seq(|playbooks|, i requires 0 <= i < |playbooks| => SavedFile(tempPaths[i], playbooks[i].fileContents))
  }

  /** What running `playbooks` together does, given one fresh temporary path per playbook. */
  function PlaybookLaunch(settings: ClusterSettings, playbooks: seq<AnsiblePlaybook>, tempPaths: seq<string>): Launch
    requires |tempPaths| >= |playbooks|
  {
    Launch(
      Invocation("ansible-playbook", PlaybookArgv(PlaybookParts(
        VerboseArgument(settings.verbose), settings.inventory, tempPaths[..|playbooks|]))),
      SavedFiles(playbooks, tempPaths))
  }

  /**
   * One iteration of the parameter loop, on the ghost side: visiting an
   * unvisited key `name` extends the enumeration, and the `-a` text changes
   * exactly as `AppendParam` changes it.
   */
  lemma ActionArgsStep(parameters: map<string, string>, order: seq<string>, remaining: set<string>, name: string)
    requires remaining <= parameters.Keys && name in remaining
    requires Enumerates(order, parameters.Keys - remaining)
    ensures Enumerates(order + [name], parameters.Keys - (remaining - {name}))
    ensures var before := Introduced(Concat(EntryTokens(parameters, order)));
            var token := EncodeParam(name, parameters[name]);
            Introduced(Concat(EntryTokens(parameters, order + [name])))
              == if token == "" then before else (if before == "" then "-a " else before) + token
  {
    var text, token := Concat(EntryTokens(parameters, order)), EncodeParam(name, parameters[name]);
    EntryTextStep(parameters, order, name);
    IntroducerStep(text, token);
    EnumeratesAppend(order, parameters.Keys - remaining, name);
    assert (parameters.Keys - remaining) + {name} == parameters.Keys - (remaining - {name});
  }

  /**
   * One iteration of the loop over the parameters: adds the `-a ` introducer
   * before the first token, then the token of `name` and `value`.
   */
  method AppendParam(actionArgs: string, name: string, value: string) returns (r: string)
    ensures EncodeParam(name, value) == "" ==> r == actionArgs
    ensures EncodeParam(name, value) != "" ==> r == (if actionArgs == "" then "-a " else actionArgs) + EncodeParam(name, value)
  {
    r := actionArgs;
    if name != "" && value != "" {
      if r == "" {
        r := r + "-a ";
      }
      r := r + (name + "=\"" + value + "\" ");
    } else if name != "" && value == "" {
      if r == "" {
        r := r + "-a ";
      }
      r := r + (name + " ");
    }
  }

  // ---------------------------------------------------------------------------
  // list_hosts
  // ---------------------------------------------------------------------------

  /** The `ansible-inventory` call listing every host and group: `--graph --vars [--inventory <path>]`. */
  method ListHosts(settings: ClusterSettings) returns (inv: Invocation)
    ensures inv.program == "ansible-inventory"
    ensures |inv.args| == (if settings.inventory.Some? then 4 else 2)
    ensures inv.args[..2] == ["--graph", "--vars"]
    ensures inv.args[2..] == InventoryArgs(settings.inventory)
  {
    var args: seq<string> := [];
    args := args + ["--graph"];
    args := args + ["--vars"];
    if settings.inventory.Some? {
      args := args + ["--inventory"];
      args := args + [settings.inventory.value];
    }
    inv := Invocation("ansible-inventory", args);
  }

  // ---------------------------------------------------------------------------
  // AnsibleCommand
  // ---------------------------------------------------------------------------

  /** One ad-hoc Ansible call: a module, whether it needs privilege escalation, the hosts and the module's parameters. */
  class AnsibleCommand {
    var command: string
    var needsBecome: bool
    var hostPattern: Option<string>
    var parameters: map<string, string>

    /** A command with no parameters. */
    constructor (command: string, needsBecome: bool, hostPattern: Option<string>)
      ensures this.command == command && this.needsBecome == needsBecome && this.hostPattern == hostPattern
      ensures parameters == map[]
    {
      this.command := command;
      this.needsBecome := needsBecome;
      this.hostPattern := hostPattern;
      parameters := map[];
    }

    /** Copies local file `src` to `dest` on the remote machines. */
    static method NewCopyCommand(needsBecome: bool, hostPattern: Option<string>, src: string, dest: string)
      returns (c: AnsibleCommand)
      ensures fresh(c)
      ensures c.command == "copy" && c.needsBecome == needsBecome && c.hostPattern == hostPattern
      ensures c.parameters.Keys == {"src", "dest"}
      ensures c.parameters["src"] == src && c.parameters["dest"] == dest
    {
      c := new AnsibleCommand("copy", needsBecome, hostPattern);
      c.WithParameter("src", src);
      c.WithParameter("dest", dest);
    }

    /** Fetches remote file `src` into local `dest`. */
    static method NewFetchCommand(needsBecome: bool, hostPattern: Option<string>, src: string, dest: string)
      returns (c: AnsibleCommand)
      ensures fresh(c)
      ensures c.command == "fetch" && c.needsBecome == needsBecome && c.hostPattern == hostPattern
      ensures c.parameters.Keys == {"src", "dest"}
      ensures c.parameters["src"] == src && c.parameters["dest"] == dest
    {
      c := new AnsibleCommand("fetch", needsBecome, hostPattern);
      c.WithParameter("src", src);
      c.WithParameter("dest", dest);
    }

    /**
     * Runs a raw command line: an empty module name (so no `-m`), the command
     * line as a parameter with an empty value, and `chdir` only when given.
     */
    static method NewRunCommand(command: string, needsBecome: bool, hostPattern: Option<string>, chdir: Option<string>)
      returns (c: AnsibleCommand)
      ensures fresh(c)
      ensures c.command == "" && c.needsBecome == needsBecome && c.hostPattern == hostPattern
      ensures c.parameters == RunParameters(command, chdir)
    {
      c := new AnsibleCommand("", needsBecome, hostPattern);
      c.WithParameter(command, "");
      c.WithOptionalParameter("chdir", chdir);
    }

    /** Upgrades every package with `apt`, with privilege escalation. */
    static method NewUpdateCommand(hostPattern: Option<string>) returns (c: AnsibleCommand)
      ensures fresh(c)
      ensures c.command == "apt" && c.needsBecome && c.hostPattern == hostPattern
      ensures c.parameters.Keys == {"update_cache", "autoremove", "force_apt_get", "upgrade"}
      ensures forall k :: k in c.parameters ==> c.parameters[k] == "yes"
    {
      c := new AnsibleCommand("apt", true, hostPattern);
      c.WithParameter("update_cache", "yes");
      c.WithParameter("autoremove", "yes");
      c.WithParameter("force_apt_get", "yes");
      c.WithParameter("upgrade", "yes");
    }

    /** Sets parameter `name` to `value`; every other key and every other field stays as it was. */
    method WithParameter(name: string, value: string)
      modifies this
      ensures name in parameters && parameters[name] == value
      ensures forall k :: k != name ==> (k in parameters <==> k in old(parameters))
      ensures forall k :: k != name && k in old(parameters) ==> parameters[k] == old(parameters)[k]
      ensures command == old(command) && needsBecome == old(needsBecome) && hostPattern == old(hostPattern)
    {
      parameters := parameters[name := value];
    }

    /** `WithParameter(name, v)` for `Some(v)`, even an empty `v`; no change at all for `None`. */
    method WithOptionalParameter(name: string, value: Option<string>)
      modifies this
      ensures value.None? ==> parameters == old(parameters)
      ensures value.Some? ==> parameters == old(parameters)[name := value.value]
      ensures command == old(command) && needsBecome == old(needsBecome) && hostPattern == old(hostPattern)
    {
      match value {
        case Some(v) =>
          WithParameter(name, v);
          assert parameters == old(parameters)[name := v];
        case None =>
      }
    }

    /**
     * The `-a` argument text of the loop over the parameters: every emitted
     * token in the hash map's order, preceded by `-a `, or empty when no
     * token is emitted. `order` records the order that was taken.
     */
    method ActionArgs() returns (actionArgs: string, ghost order: seq<string>)
      ensures Enumerates(order, parameters.Keys)
      ensures actionArgs == Introduced(Concat(EntryTokens(parameters, order)))
      ensures actionArgs == "" || IsActionArgument(actionArgs)
      ensures parameters == map[] ==> actionArgs == ""
    {
      actionArgs := "";
      order := [];
      if |parameters| > 0 {
        var remaining := parameters.Keys;
        while remaining != {}
          invariant remaining <= parameters.Keys
          invariant Enumerates(order, parameters.Keys - remaining)
          invariant actionArgs == Introduced(Concat(EntryTokens(parameters, order)))
          decreases remaining
        {
          var name :| name in remaining;
          var value := parameters[name];
          ActionArgsStep(parameters, order, remaining, name);
          actionArgs := AppendParam(actionArgs, name, value);
          remaining := remaining - {name};
          order := order + [name];
        }
      } else {
        assert parameters.Keys == {};
      }
    }

    /**
     * The `ansible` call this command makes. The parameters are visited in
     * the hash map's order, which is unspecified; `order` records the order
     * that was taken.
     */
    method Run(settings: ClusterSettings) returns (inv: Invocation, ghost order: seq<string>)
      ensures Enumerates(order, parameters.Keys)
      ensures inv == AdhocInvocation(settings, command, needsBecome, hostPattern, parameters, order)
    {
      var args: seq<string> := [];
      var verboseFlag := VerboseArgument(settings.verbose);
      if verboseFlag.Some? {
        args := args + [verboseFlag.value];
      }
      assert args == OptionalArg(verboseFlag);
      if settings.inventory.Some? {
        args := args + ["--inventory", settings.inventory.value];
      }
      assert args == OptionalArg(verboseFlag) + InventoryArgs(settings.inventory);
      if needsBecome {
        args := args + ["-K", "-b"];
      }
      assert args == OptionalArg(verboseFlag) + InventoryArgs(settings.inventory) + BecomeArgs(needsBecome);
      // The module, when one is named.
      if command != "" {
        args := args + ["-m", command];
      }
      ghost var flags := args;
      assert flags == AdhocFlags(settings, command, needsBecome);
      // The `-a` text of the parameters, if any token was emitted.
      var actionArgs;
      actionArgs, order := ActionArgs();
      if actionArgs != "" {
        args := args + [actionArgs];
      }
      assert args == flags + OptionalArg(ActionArgument(parameters, order));
      if hostPattern.Some? {
        args := args + [hostPattern.value];
      } else {
        args := args + ["all"];
      }
      inv := Invocation("ansible", args);
    }
  }

  /** The parameters of a raw command: the command line with an empty value, then `chdir` when given. */
  function RunParameters(command: string, chdir: Option<string>): map<string, string> {
    if chdir.Some? then map[command := ""]["chdir" := chdir.value] else map[command := ""]
  }

  // ---------------------------------------------------------------------------
  // Playbooks
  // ---------------------------------------------------------------------------

  /** One playbook: its YAML text, held verbatim. */
  datatype AnsiblePlaybook = AnsiblePlaybook(fileContents: string) {

    /** The playbook whose text is `fileContents`. */
    static function Load(fileContents: string): (p: AnsiblePlaybook)
      ensures p.fileContents == fileContents
    {
      AnsiblePlaybook(fileContents)
    }

    /** Runs this playbook on its own: one `ansible-playbook` call writing one file. */
    method Run(settings: ClusterSettings, tempPaths: seq<string>) returns (launch: Launch)
      requires |tempPaths| >= 1
      ensures launch == PlaybookLaunch(settings, [this], tempPaths)
    {
      launch := RunAnsiblePlaybook(settings, [this], tempPaths);
    }
  }

  /**
   * The `ansible-playbook` call for `playbooks`: each playbook is written to
   * the next fresh temporary path, and all the paths are passed to one call.
   */
  method RunAnsiblePlaybook(settings: ClusterSettings, playbooks: seq<AnsiblePlaybook>, tempPaths: seq<string>)
    returns (launch: Launch)
    requires |tempPaths| >= |playbooks|
    ensures launch == PlaybookLaunch(settings, playbooks, tempPaths)
  {
    var args: seq<string> := [];
    var verboseFlag := VerboseArgument(settings.verbose);
    if verboseFlag.Some? {
      args := args + [verboseFlag.value];
    }
    args := args + ["-K"];
    assert args == OptionalArg(verboseFlag) + ["-K"];
    if settings.inventory.Some? {
      args := args + ["--inventory", settings.inventory.value];
    }
    ghost var flags := args;
    assert flags == OptionalArg(verboseFlag) + ["-K"] + InventoryArgs(settings.inventory);
    var written: seq<SavedFile> := [];
    for i := 0 to |playbooks|
      invariant args == flags + tempPaths[..i]
      invariant written == SavedFiles(playbooks[..i], tempPaths)
    {
      var fileName := tempPaths[i];
      written := written + [SavedFile(fileName, playbooks[i].fileContents)];
      args := args + [fileName];
      assert tempPaths[..i + 1] == tempPaths[..i] + [fileName];
    }
    assert playbooks[..|playbooks|] == playbooks;
    launch := Launch(Invocation("ansible-playbook", args), written);
  }

  /** A set of playbooks run together in one call, in the order they were added. */
  class AnsibleAggregatePlaybook {
    var playbooks: seq<AnsiblePlaybook>

    /** An empty aggregate. */
    constructor ()
      ensures playbooks == []
    {
      playbooks := [];
    }

    /** Appends `playbook` after every playbook added before it. */
    method AddPlaybook(playbook: AnsiblePlaybook)
      modifies this
      ensures playbooks == old(playbooks) + [playbook]
    {
      playbooks := playbooks + [playbook];
    }

    /** Runs every playbook, in insertion order, in one `ansible-playbook` call. */
    method Run(settings: ClusterSettings, tempPaths: seq<string>) returns (launch: Launch)
      requires |tempPaths| >= |playbooks|
      ensures launch == PlaybookLaunch(settings, playbooks, tempPaths)
    {
      var refs: seq<AnsiblePlaybook> := [];
      for i := 0 to |playbooks|
        invariant refs == playbooks[..i]
      {
        refs := refs + [playbooks[i]];
      }
      assert refs == playbooks;
      launch := RunAnsiblePlaybook(settings, refs, tempPaths);
    }
  }
}
