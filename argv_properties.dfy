/**
 * Properties of the argument vectors the command layer builds. Each vector is
 * given an inverse: a parser that reads the pieces back. The round-trip
 * lemmas show that the fixed argument order loses nothing and that each
 * piece sits where it should: the verbosity flag first, `-K -b` together or
 * not at all, `-m` only for a named module, one `-a` argument at most, and
 * the target last.
 */
module ArgvProperties {
  import opened Wrappers
  import opened Settings
  import opened Ansible

  // ---------------------------------------------------------------------------
  // Parsing stages: each consumes exactly the segment it recognises
  // ---------------------------------------------------------------------------

  /** Reads a leading verbosity flag. */
  function TakeVerboseFlag(args: seq<string>): (r: (Option<string>, seq<string>))
    ensures OptionalArg(r.0) + r.1 == args
    ensures r.0.Some? ==> IsVerboseFlag(r.0.value)
    ensures r.0.None? ==> args == [] || !IsVerboseFlag(args[0])
  {
    if |args| > 0 && IsVerboseFlag(args[0]) then
      assert [args[0]] + args[1..] == args;
      (Some(args[0]), args[1..])
    else (None, args)
  }

  /** `args` starts with `--inventory <path>`. */
  predicate StartsWithInventory(args: seq<string>) {
    |args| >= 2 && args[0] == "--inventory"
  }

  /** Reads a leading `--inventory <path>`. */
  function TakeInventory(args: seq<string>): (r: (Option<string>, seq<string>))
    ensures InventoryArgs(r.0) + r.1 == args
    ensures r.0.None? ==> !StartsWithInventory(args)
  {
    if StartsWithInventory(args) then
      assert [args[0], args[1]] + args[2..] == args;
      (Some(args[1]), args[2..])
    else (None, args)
  }

  /** Reads a leading `-K -b` pair. */
  function TakeBecome(args: seq<string>): (r: (bool, seq<string>))
    ensures BecomeArgs(r.0) + r.1 == args
  {
    if |args| >= 2 && args[0] == "-K" && args[1] == "-b" then
      assert [args[0], args[1]] + args[2..] == args;
      (true, args[2..])
    else (false, args)
  }

  /** Reads a leading `-m <module>` with a non-empty module name. */
  function TakeModule(args: seq<string>): (r: (string, seq<string>))
    ensures ModuleArgs(r.0) + r.1 == args
  {
    if |args| >= 2 && args[0] == "-m" && args[1] != "" then
      assert [args[0], args[1]] + args[2..] == args;
      (args[1], args[2..])
    else ("", args)
  }

  /** Reads a leading `-a` argument. */
  function TakeAction(args: seq<string>): (r: (Option<string>, seq<string>))
    ensures OptionalArg(r.0) + r.1 == args
    ensures r.0.Some? ==> IsActionArgument(r.0.value)
  {
    if |args| > 0 && IsActionArgument(args[0]) then
      assert [args[0]] + args[1..] == args;
      (Some(args[0]), args[1..])
    else (None, args)
  }

  // ---------------------------------------------------------------------------
  // Ad-hoc argument vectors
  // ---------------------------------------------------------------------------

  /** The pieces an ad-hoc vector can carry: a real verbosity flag and a real `-a` argument. */
  predicate WellFormedAdhoc(p: AdhocParts) {
    && (p.verboseFlag.Some? ==> IsVerboseFlag(p.verboseFlag.value))
    && (p.action.Some? ==> IsActionArgument(p.action.value))
  }

  /** Reads an ad-hoc vector back into its pieces, in the order `AdhocArgv` writes them. */
  function ParseAdhoc(args: seq<string>): Option<AdhocParts> {
    if args == [] then None
    else
      var verbose := TakeVerboseFlag(args[..|args| - 1]);
      var inventory := TakeInventory(verbose.1);
      var become := TakeBecome(inventory.1);
      var moduleName := TakeModule(become.1);
      var action := TakeAction(moduleName.1);
      if action.1 == [] then
        Some(AdhocParts(verbose.0, inventory.0, become.0, moduleName.0, action.0, args[|args| - 1]))
      else None
  }

  /** The first argument of each segment that can follow the verbosity flag is not a verbosity flag. */
  lemma NoFlagLooksVerbose(s: string)
    requires s == "--inventory" || s == "-K" || s == "-m" || IsActionArgument(s)
    ensures !IsVerboseFlag(s)
  {
    if s == "-K" {
      assert s[1] == 'K';
    } else if s == "-m" {
      assert s[1] == 'm';
    } else if IsActionArgument(s) {
      assert s[1] == s[..3][1] == 'a';
    }
  }

  /** The `-a` stage reads the optional `-a` argument and nothing else. */
  lemma ActionStage(action: Option<string>)
    requires action.Some? ==> IsActionArgument(action.value)
    ensures TakeAction(OptionalArg(action)) == (action, [])
  {
    if action.Some? {
      assert OptionalArg(action)[1..] == [];
    }
  }

  /** The `-m` stage reads `-m <module>` when it is there and leaves a following `-a` argument alone. */
  lemma ModuleStage(moduleName: string, rest: seq<string>)
    requires rest != [] ==> IsActionArgument(rest[0])
    ensures TakeModule(ModuleArgs(moduleName) + rest) == (moduleName, rest)
  {
    var s := ModuleArgs(moduleName) + rest;
    if moduleName != "" {
      assert s[0] == "-m" && s[1] == moduleName && s[2..] == rest;
    } else {
      assert s == rest;
      if rest != [] {
        assert rest[0][..3] == "-a ";
      }
    }
  }

  /** The privilege stage reads `-K -b` when it is there and leaves a following `-m` or `-a` alone. */
  lemma BecomeStage(needsBecome: bool, rest: seq<string>)
    requires rest != [] ==> rest[0] == "-m" || IsActionArgument(rest[0])
    ensures TakeBecome(BecomeArgs(needsBecome) + rest) == (needsBecome, rest)
  {
    var s := BecomeArgs(needsBecome) + rest;
    if needsBecome {
      assert s[0] == "-K" && s[1] == "-b" && s[2..] == rest;
    } else {
      assert s == rest;
      if rest != [] && IsActionArgument(rest[0]) {
        assert rest[0][..3] == "-a ";
      }
    }
  }

  /** The inventory stage reads `--inventory <path>` when it is there and leaves a following `-K`, `-m` or `-a` alone. */
  lemma InventoryStage(inventory: Option<string>, rest: seq<string>)
    requires rest != [] ==> rest[0] == "-K" || rest[0] == "-m" || IsActionArgument(rest[0])
    ensures TakeInventory(InventoryArgs(inventory) + rest) == (inventory, rest)
  {
    var s := InventoryArgs(inventory) + rest;
    if inventory.Some? {
      assert s[0] == "--inventory" && s[1] == inventory.value && s[2..] == rest;
    } else {
      assert s == rest;
      if rest != [] && IsActionArgument(rest[0]) {
        assert rest[0][1] == rest[0][..3][1] == 'a';
        assert "--inventory"[1] == '-';
      }
    }
  }

  /** The verbosity stage reads the flag when it is there and leaves any other segment alone. */
  lemma VerboseStage(verboseFlag: Option<string>, rest: seq<string>)
    requires verboseFlag.Some? ==> IsVerboseFlag(verboseFlag.value)
    requires rest != [] ==> rest[0] == "--inventory" || rest[0] == "-K" || rest[0] == "-m" || IsActionArgument(rest[0])
    ensures TakeVerboseFlag(OptionalArg(verboseFlag) + rest) == (verboseFlag, rest)
  {
    var s := OptionalArg(verboseFlag) + rest;
    if verboseFlag.Some? {
      assert s[0] == verboseFlag.value && s[1..] == rest;
    } else {
      assert s == rest;
      if rest != [] {
        NoFlagLooksVerbose(rest[0]);
      }
    }
  }

  /** The ad-hoc vector as its segments, nested from the right, then the target. */
  lemma AdhocArgvSegments(p: AdhocParts)
    ensures AdhocArgv(p) == OptionalArg(p.verboseFlag) + (InventoryArgs(p.inventory) + (BecomeArgs(p.needsBecome)
      + (ModuleArgs(p.moduleName) + OptionalArg(p.action)))) + [p.target]
  {
  }

  /** A non-empty vector is its front followed by its last argument. */
  lemma FrontAndLast(args: seq<string>)
    requires args != []
    ensures args == args[..|args| - 1] + [args[|args| - 1]]
  {
  }

  /** Parsing an ad-hoc vector gives back exactly the pieces it was built from. */
  lemma AdhocRoundTrip(p: AdhocParts)
    requires WellFormedAdhoc(p)
    ensures ParseAdhoc(AdhocArgv(p)) == Some(p)
  {
    var s4 := OptionalArg(p.action);
    var s3 := ModuleArgs(p.moduleName) + s4;
    var s2 := BecomeArgs(p.needsBecome) + s3;
    var s1 := InventoryArgs(p.inventory) + s2;
    var s0 := OptionalArg(p.verboseFlag) + s1;
    var args := AdhocArgv(p);
    AdhocArgvSegments(p);
    assert args[..|args| - 1] == s0;
    ActionStage(p.action);
    ModuleStage(p.moduleName, s4);
    BecomeStage(p.needsBecome, s3);
    InventoryStage(p.inventory, s2);
    VerboseStage(p.verboseFlag, s1);
  }

  /** A vector the parser accepts is exactly the ad-hoc vector of the pieces it reads. */
  lemma AdhocParseExact(args: seq<string>, p: AdhocParts)
    requires ParseAdhoc(args) == Some(p)
    ensures WellFormedAdhoc(p) && AdhocArgv(p) == args
  {
    var front := args[..|args| - 1];
    var verbose := TakeVerboseFlag(front);
    var inventory := TakeInventory(verbose.1);
    var become := TakeBecome(inventory.1);
    var moduleName := TakeModule(become.1);
    var action := TakeAction(moduleName.1);
    assert action.1 == [];
    assert p == AdhocParts(verbose.0, inventory.0, become.0, moduleName.0, action.0, args[|args| - 1]);
    var s4 := OptionalArg(p.action);
    assert moduleName.1 == s4;
    var s3 := ModuleArgs(p.moduleName) + s4;
    assert become.1 == s3;
    var s2 := BecomeArgs(p.needsBecome) + s3;
    assert inventory.1 == s2;
    var s1 := InventoryArgs(p.inventory) + s2;
    assert verbose.1 == s1;
    assert front == OptionalArg(p.verboseFlag) + s1;
    FrontAndLast(args);
    AdhocArgvSegments(p);
  }

  /**
   * The vector an `AnsibleCommand` launches reads back as its verbosity flag,
   * inventory, privilege flag, module, `-a` argument and target.
   */
  lemma AdhocInvocationDecodes(
    settings: ClusterSettings, command: string, needsBecome: bool, hostPattern: Option<string>,
    parameters: map<string, string>, order: seq<string>)
    requires Enumerates(order, parameters.Keys)
    ensures ParseAdhoc(AdhocInvocation(settings, command, needsBecome, hostPattern, parameters, order).args)
         == Some(AdhocParts(VerboseArgument(settings.verbose), settings.inventory, needsBecome, command,
                            ActionArgument(parameters, order), Target(hostPattern)))
  {
    AdhocRoundTrip(AdhocParts(VerboseArgument(settings.verbose), settings.inventory, needsBecome, command,
                              ActionArgument(parameters, order), Target(hostPattern)));
  }

  // ---------------------------------------------------------------------------
  // Playbook argument vectors
  // ---------------------------------------------------------------------------

  /**
   * The pieces a playbook vector can carry unambiguously: a real verbosity
   * flag, and, when no inventory is given, a first path that does not read as
   * `--inventory <path>` (temporary file names never do).
   */
  predicate WellFormedPlaybook(p: PlaybookParts) {
    && (p.verboseFlag.Some? ==> IsVerboseFlag(p.verboseFlag.value))
    && (p.inventory.None? ==> !StartsWithInventory(p.paths))
  }

  /** Reads a playbook vector back: the verbosity flag, the mandatory `-K`, the inventory, then the paths. */
  function ParsePlaybook(args: seq<string>): Option<PlaybookParts> {
    var verbose := TakeVerboseFlag(args);
    if verbose.1 != [] && verbose.1[0] == "-K" then
      var inventory := TakeInventory(verbose.1[1..]);
      Some(PlaybookParts(verbose.0, inventory.0, inventory.1))
    else None
  }

  /** Parsing a playbook vector gives back its pieces: the same flags and the same paths in the same order. */
  lemma PlaybookRoundTrip(p: PlaybookParts)
    requires WellFormedPlaybook(p)
    ensures ParsePlaybook(PlaybookArgv(p)) == Some(p)
  {
    var s1 := InventoryArgs(p.inventory) + p.paths;
    var s0 := ["-K"] + s1;
    assert PlaybookArgv(p) == OptionalArg(p.verboseFlag) + s0;
    VerboseStage(p.verboseFlag, s0);
    assert s0[1..] == s1;
    if p.inventory.Some? {
      assert s1[2..] == p.paths;
    }
    assert TakeInventory(s1) == (p.inventory, p.paths);
  }

  /** Reassembles a playbook vector from the segments the parser splits it into. */
  lemma PlaybookSegments(args: seq<string>, verboseFlag: Option<string>, afterFlag: seq<string>,
                         inventory: Option<string>, paths: seq<string>)
    requires OptionalArg(verboseFlag) + afterFlag == args
    requires afterFlag != [] && afterFlag[0] == "-K"
    requires InventoryArgs(inventory) + paths == afterFlag[1..]
    ensures PlaybookArgv(PlaybookParts(verboseFlag, inventory, paths)) == args
  {
    assert afterFlag == ["-K"] + afterFlag[1..];
  }

  /** A vector the parser accepts is exactly the playbook vector of the pieces it reads. */
  lemma PlaybookParseExact(args: seq<string>, p: PlaybookParts)
    requires ParsePlaybook(args) == Some(p)
    ensures WellFormedPlaybook(p) && PlaybookArgv(p) == args
  {
    var verbose := TakeVerboseFlag(args);
    assert verbose.1 != [] && verbose.1[0] == "-K";
    var rest := verbose.1[1..];
    var inventory := TakeInventory(rest);
    assert p == PlaybookParts(verbose.0, inventory.0, inventory.1);
    PlaybookSegments(args, verbose.0, verbose.1, inventory.0, inventory.1);
  }

  /**
   * A playbook vector never asks for privilege escalation: `-b` can appear in
   * it only as the inventory path or as one of the playbook paths.
   */
  lemma PlaybookNeverBecomes(p: PlaybookParts)
    requires p.verboseFlag.Some? ==> IsVerboseFlag(p.verboseFlag.value)
    ensures "-b" in PlaybookArgv(p) ==> p.inventory == Some("-b") || "-b" in p.paths
  {
    assert "-b" !in OptionalArg(p.verboseFlag) by {
      if p.verboseFlag.Some? {
        assert p.verboseFlag.value[1] == 'v' != "-b"[1];
      }
    }
    assert "-b" in InventoryArgs(p.inventory) ==> p.inventory == Some("-b");
    assert PlaybookArgv(p) == OptionalArg(p.verboseFlag) + (["-K"] + (InventoryArgs(p.inventory) + p.paths));
  }

  /**
   * Running playbooks together makes one `ansible-playbook` call whose vector
   * reads back as the verbosity flag, the inventory and the fresh paths, one
   * per playbook, in insertion order.
   */
  lemma PlaybookLaunchDecodes(settings: ClusterSettings, playbooks: seq<AnsiblePlaybook>, tempPaths: seq<string>)
    requires |tempPaths| >= |playbooks|
    requires settings.inventory.None? ==> !StartsWithInventory(tempPaths[..|playbooks|])
    ensures PlaybookLaunch(settings, playbooks, tempPaths).invocation.program == "ansible-playbook"
    ensures ParsePlaybook(PlaybookLaunch(settings, playbooks, tempPaths).invocation.args)
         == Some(PlaybookParts(VerboseArgument(settings.verbose), settings.inventory, tempPaths[..|playbooks|]))
  {
    PlaybookRoundTrip(PlaybookParts(VerboseArgument(settings.verbose), settings.inventory, tempPaths[..|playbooks|]));
  }

  /**
   * Playbook `i` is written to the `i`-th fresh path, and that same path is
   * the `i`-th of the paths that end the `ansible-playbook` vector.
   */
  lemma PlaybookLaunchPairsPaths(settings: ClusterSettings, playbooks: seq<AnsiblePlaybook>, tempPaths: seq<string>, i: nat)
    requires |tempPaths| >= |playbooks|
    requires i < |playbooks|
    ensures var launch := PlaybookLaunch(settings, playbooks, tempPaths);
      && |launch.written| == |playbooks| <= |launch.invocation.args|
      && launch.written[i].path == launch.invocation.args[|launch.invocation.args| - |playbooks| + i]
      && launch.written[i].contents == playbooks[i].fileContents
  {
    var parts := PlaybookParts(VerboseArgument(settings.verbose), settings.inventory, tempPaths[..|playbooks|]);
    var args := PlaybookArgv(parts);
    var flags := OptionalArg(parts.verboseFlag) + ["-K"] + InventoryArgs(parts.inventory);
    assert args == flags + tempPaths[..|playbooks|];
    assert args[|flags| + i] == tempPaths[..|playbooks|][i] == tempPaths[i];
  }
}
