/**
 * The command dispatcher: every subcommand of the parsed command line is
 * turned into one Ansible call, an `ansible-inventory` listing, or a run of
 * the bundled playbooks for a service.
 */
module Commands {
  import opened Wrappers
  import opened Settings
  import opened Ansible
  import opened ArgvProperties

  // The playbooks are compiled into the program. Their YAML text is not
  // part of this model: each constant stands for the text of the bundled
  // file it names, and the five are distinct.
  const INSTALL_KUBERNETES_PLAYBOOK := "playbooks/install-kubernetes.yaml"
  const UNINSTALL_KUBERNETES_PLAYBOOK := "playbooks/uninstall-kubernetes.yaml"
  const SETUP_KUBERNETES_CLUSTER_PLAYBOOK := "playbooks/setup-kubernetes-cluster.yaml"
  const INSTALL_DOCKER_PLAYBOOK := "playbooks/install-docker.yaml"
  const UNINSTALL_DOCKER_PLAYBOOK := "playbooks/uninstall-docker.yaml"

  // The services that can be deployed and deleted.
  const SERVICE_NAME_DOCKER := "docker"
  const SERVICE_NAME_KUBERNETES := "kubernetes"

  /** The error text for a service with no playbooks; deleting uses the same words as deploying. */
  function UnknownServiceMessage(service: string): (msg: string)
    ensures |msg| == |service| + 32
    ensures msg[..17] == "Unknown service '"
    ensures msg[17..17 + |service|] == service
    ensures msg[17 + |service|..] == "', can't deploy"
  {
    "Unknown service '" + service + "', can't deploy"
  }

  /** What a subcommand asks for, before anything is run. */
  datatype Plan =
    | Adhoc(moduleName: string, needsBecome: bool, parameters: map<string, string>)
    | ListInventory
    | Playbooks(playbooks: seq<AnsiblePlaybook>)
    | Failure(message: string)

  /** The playbooks a service subcommand runs, in order, or `None` for an unknown service. */
  function ServicePlaybooks(sc: ServiceSubCommand): (r: Option<seq<AnsiblePlaybook>>)
    ensures r.None? <==> sc.service != SERVICE_NAME_KUBERNETES && sc.service != SERVICE_NAME_DOCKER
    ensures r.Some? ==> 1 <= |r.value| <= 2
  {
    match sc
    case Deploy(service) =>
      if service == SERVICE_NAME_KUBERNETES then
        Some([AnsiblePlaybook.Load(INSTALL_KUBERNETES_PLAYBOOK), AnsiblePlaybook.Load(SETUP_KUBERNETES_CLUSTER_PLAYBOOK)])
      else if service == SERVICE_NAME_DOCKER then
        Some([AnsiblePlaybook.Load(INSTALL_DOCKER_PLAYBOOK)])
      else
        None
    case Delete(service) =>
      if service == SERVICE_NAME_KUBERNETES then
        Some([AnsiblePlaybook.Load(UNINSTALL_KUBERNETES_PLAYBOOK)])
      else if service == SERVICE_NAME_DOCKER then
        Some([AnsiblePlaybook.Load(UNINSTALL_DOCKER_PLAYBOOK)])
      else
        None
  }

  /** The parameters of `update`: refresh the cache, upgrade, remove what is unused, use apt-get. */
  function UpdateParameters(): map<string, string> {
    map["update_cache" := "yes", "autoremove" := "yes", "force_apt_get" := "yes", "upgrade" := "yes"]
  }

  /** True for the subcommands that escalate privileges on the remote machines. */
  predicate Escalates(sub: SubCommand) {
    sub.Reboot? || sub.Shutdown? || sub.Update? || (sub.Run? && sub.needsBecome)
  }

  /**
   * The plan for a subcommand. Only a service subcommand can fail, and only
   * for an unknown service; an ad-hoc call escalates exactly for reboot,
   * shutdown, update, and run when it is asked to; copy, fetch, ping, ssh and
   * uptime never do.
   */
  function PlanFor(sub: SubCommand): (p: Plan)
    ensures p.Failure? <==> sub.Service? && ServicePlaybooks(sub.serviceCommand).None?
    ensures p.Failure? ==> p.message == UnknownServiceMessage(sub.serviceCommand.service)
    ensures p.Adhoc? <==> !sub.Service? && !sub.Inventory?
    ensures p.Adhoc? ==> (p.needsBecome <==> Escalates(sub))
    ensures p.Playbooks? ==> 1 <= |p.playbooks| <= 2
  {
    match sub
    case Copy(src, dest) => Adhoc("copy", false, map["src" := src, "dest" := dest])
    case Fetch(src, dest) => Adhoc("fetch", false, map["src" := src, "dest" := dest])
    case Inventory(_) => ListInventory
    case Ping => Adhoc("ping", false, map[])
    case Reboot => Adhoc("reboot", true, map[])
    case Run(command, needsBecome, chdir) => Adhoc("", needsBecome, RunParameters(command, chdir))
    case Service(sc) =>
      (match ServicePlaybooks(sc)
       case Some(playbooks) => Playbooks(playbooks)
       case None => Failure(UnknownServiceMessage(sc.service)))
    case Shutdown => Adhoc("community.general.shutdown", true, map[])
    case Ssh => Adhoc("ssh", false, map[])
    case Update => Adhoc("apt", true, UpdateParameters())
    case Uptime => Adhoc("", false, RunParameters("uptime", None))
  }

  /** The inventory listing call, as the dispatcher returns it. */
  function InventoryLaunch(settings: ClusterSettings): Launch {
    Launch(Invocation("ansible-inventory", ["--graph", "--vars"] + InventoryArgs(settings.inventory)), [])
  }

  /**
   * `r` is what carrying out `plan` under `settings` gives: the ad-hoc call
   * with its parameters visited in `order`, the inventory listing, the
   * playbook run writing to `tempPaths`, or the error.
   */
  ghost predicate Performs(settings: ClusterSettings, plan: Plan, tempPaths: seq<string>,
                           order: seq<string>, r: Result<Launch, string>)
  {
    match plan
    case Adhoc(moduleName, needsBecome, parameters) =>
      Enumerates(order, parameters.Keys)
      && r == Ok(Launch(AdhocInvocation(settings, moduleName, needsBecome, settings.hostPattern, parameters, order), []))
    case ListInventory => r == Ok(InventoryLaunch(settings))
    case Playbooks(playbooks) => |tempPaths| >= |playbooks| && r == Ok(PlaybookLaunch(settings, playbooks, tempPaths))
    case Failure(message) => r == Err(message)
  }

  /** Runs the playbooks that deploy `service`: two for kubernetes, one for docker, an error otherwise. */
  method RunDeployService(settings: ClusterSettings, service: string, tempPaths: seq<string>)
    returns (r: Result<Launch, string>)
    requires |tempPaths| >= 2
    ensures service == SERVICE_NAME_KUBERNETES ==>
      r == Ok(PlaybookLaunch(settings, [AnsiblePlaybook(INSTALL_KUBERNETES_PLAYBOOK),
                                        AnsiblePlaybook(SETUP_KUBERNETES_CLUSTER_PLAYBOOK)], tempPaths))
    ensures service == SERVICE_NAME_DOCKER ==>
      r == Ok(PlaybookLaunch(settings, [AnsiblePlaybook(INSTALL_DOCKER_PLAYBOOK)], tempPaths))
    ensures service != SERVICE_NAME_KUBERNETES && service != SERVICE_NAME_DOCKER ==>
      r == Err(UnknownServiceMessage(service))
  {
    var playbook := new AnsibleAggregatePlaybook();
    if service == SERVICE_NAME_KUBERNETES {
      playbook.AddPlaybook(AnsiblePlaybook.Load(INSTALL_KUBERNETES_PLAYBOOK));
      playbook.AddPlaybook(AnsiblePlaybook.Load(SETUP_KUBERNETES_CLUSTER_PLAYBOOK));
      assert playbook.playbooks == [AnsiblePlaybook(INSTALL_KUBERNETES_PLAYBOOK), AnsiblePlaybook(SETUP_KUBERNETES_CLUSTER_PLAYBOOK)];
    } else if service == SERVICE_NAME_DOCKER {
      playbook.AddPlaybook(AnsiblePlaybook.Load(INSTALL_DOCKER_PLAYBOOK));
      assert playbook.playbooks == [AnsiblePlaybook(INSTALL_DOCKER_PLAYBOOK)];
    } else {
      return Err(UnknownServiceMessage(service));
    }
    var launch := playbook.Run(settings, tempPaths);
    r := Ok(launch);
  }

  /** Runs the playbook that deletes `service`, one for each known service, an error otherwise. */
  method RunDeleteService(settings: ClusterSettings, service: string, tempPaths: seq<string>)
    returns (r: Result<Launch, string>)
    requires |tempPaths| >= 1
    ensures service == SERVICE_NAME_KUBERNETES ==>
      r == Ok(PlaybookLaunch(settings, [AnsiblePlaybook(UNINSTALL_KUBERNETES_PLAYBOOK)], tempPaths))
    ensures service == SERVICE_NAME_DOCKER ==>
      r == Ok(PlaybookLaunch(settings, [AnsiblePlaybook(UNINSTALL_DOCKER_PLAYBOOK)], tempPaths))
    ensures service != SERVICE_NAME_KUBERNETES && service != SERVICE_NAME_DOCKER ==>
      r == Err(UnknownServiceMessage(service))
  {
    var playbook := new AnsibleAggregatePlaybook();
    if service == SERVICE_NAME_KUBERNETES {
      playbook.AddPlaybook(AnsiblePlaybook.Load(UNINSTALL_KUBERNETES_PLAYBOOK));
      assert playbook.playbooks == [AnsiblePlaybook(UNINSTALL_KUBERNETES_PLAYBOOK)];
    } else if service == SERVICE_NAME_DOCKER {
      playbook.AddPlaybook(AnsiblePlaybook.Load(UNINSTALL_DOCKER_PLAYBOOK));
      assert playbook.playbooks == [AnsiblePlaybook(UNINSTALL_DOCKER_PLAYBOOK)];
    } else {
      return Err(UnknownServiceMessage(service));
    }
    var launch := playbook.Run(settings, tempPaths);
    r := Ok(launch);
  }

  /** The `AnsibleCommand` the dispatcher builds for a subcommand that makes an ad-hoc call. */
  method NewCommandFor(sub: SubCommand, hostPattern: Option<string>) returns (command: AnsibleCommand)
    requires PlanFor(sub).Adhoc?
    ensures fresh(command)
    ensures command.command == PlanFor(sub).moduleName && command.needsBecome == PlanFor(sub).needsBecome
    ensures command.hostPattern == hostPattern && command.parameters == PlanFor(sub).parameters
  {
    match sub {
      case Copy(src, dest) =>
        command := AnsibleCommand.NewCopyCommand(false, hostPattern, src, dest);
        assert command.parameters == map["src" := src, "dest" := dest];
      case Fetch(src, dest) =>
        command := AnsibleCommand.NewFetchCommand(false, hostPattern, src, dest);
        assert command.parameters == map["src" := src, "dest" := dest];
      case Ping =>
        command := new AnsibleCommand("ping", false, hostPattern);
      case Reboot =>
        command := new AnsibleCommand("reboot", true, hostPattern);
      case Run(commandLine, needsBecome, chdir) =>
        command := AnsibleCommand.NewRunCommand(commandLine, needsBecome, hostPattern, chdir);
      case Shutdown =>
        command := new AnsibleCommand("community.general.shutdown", true, hostPattern);
      case Ssh =>
        command := new AnsibleCommand("ssh", false, hostPattern);
      case Update =>
        command := AnsibleCommand.NewUpdateCommand(hostPattern);
        assert command.parameters == UpdateParameters();
      case Uptime =>
        command := AnsibleCommand.NewRunCommand("uptime", false, hostPattern, None);
    }
  }

  /**
   * Runs the subcommand of `settings`. Every playbook run needs at most two
   * temporary paths. `order` records the order in which an ad-hoc call
   * visited its parameters.
   */
  method Run(settings: ClusterSettings, tempPaths: seq<string>) returns (r: Result<Launch, string>, ghost order: seq<string>)
    requires |tempPaths| >= 2
    ensures Performs(settings, PlanFor(settings.subcommand), tempPaths, order, r)
    ensures r.Err? <==> PlanFor(settings.subcommand).Failure?
    ensures PlanFor(settings.subcommand).Playbooks? ==>
      r == Ok(PlaybookLaunch(settings, PlanFor(settings.subcommand).playbooks, tempPaths))
    ensures settings.subcommand.Inventory? ==> r == Ok(InventoryLaunch(settings))
    ensures PlanFor(settings.subcommand).Adhoc? ==> r.Ok? && r.value.invocation.program == "ansible" && r.value.written == []
  {
    order := [];
    match settings.subcommand {
      case Inventory(_) =>
        var inv := ListHosts(settings);
        assert inv.args == inv.args[..2] + inv.args[2..];
        r := Ok(Launch(inv, []));
      case Service(sc) =>
        match sc {
          case Deploy(service) => r := RunDeployService(settings, service, tempPaths);
          case Delete(service) => r := RunDeleteService(settings, service, tempPaths);
        }
      case _ =>
        var command := NewCommandFor(settings.subcommand, settings.hostPattern);
        var inv;
        inv, order := command.Run(settings);
        r := Ok(Launch(inv, []));
    }
  }

  // ---------------------------------------------------------------------------
  // What the dispatched calls look like
  // ---------------------------------------------------------------------------

  /**
   * Read back, the `ansible` vector of every ad-hoc subcommand carries the
   * verbosity flag and inventory of the settings, the subcommand's module,
   * `-K -b` exactly when the subcommand escalates, and the host pattern or
   * `all` as its target; no file is written.
   */
  lemma AdhocDispatchDecodes(settings: ClusterSettings, tempPaths: seq<string>, order: seq<string>, r: Result<Launch, string>)
    requires PlanFor(settings.subcommand).Adhoc?
    requires Performs(settings, PlanFor(settings.subcommand), tempPaths, order, r)
    ensures r.Ok? && r.value.invocation.program == "ansible" && r.value.written == []
    ensures var parts := ParseAdhoc(r.value.invocation.args);
      && parts.Some?
      && parts.value.verboseFlag == VerboseArgument(settings.verbose)
      && parts.value.inventory == settings.inventory
      && (parts.value.needsBecome <==> Escalates(settings.subcommand))
      && parts.value.moduleName == PlanFor(settings.subcommand).moduleName
      && parts.value.target == Target(settings.hostPattern)
  {
    var plan := PlanFor(settings.subcommand);
    AdhocInvocationDecodes(settings, plan.moduleName, plan.needsBecome, settings.hostPattern, plan.parameters, order);
  }

  /**
   * A known service writes each of its playbooks, in order, to the next
   * fresh path and passes exactly those paths, in the same order, to one
   * `ansible-playbook` call that always asks for the become password.
   */
  lemma ServiceDispatchDecodes(settings: ClusterSettings, tempPaths: seq<string>, order: seq<string>, r: Result<Launch, string>)
    requires PlanFor(settings.subcommand).Playbooks?
    requires Performs(settings, PlanFor(settings.subcommand), tempPaths, order, r)
    requires settings.inventory.None? ==> !StartsWithInventory(tempPaths[..|PlanFor(settings.subcommand).playbooks|])
    ensures var playbooks := PlanFor(settings.subcommand).playbooks;
      && r.Ok? && r.value.invocation.program == "ansible-playbook"
      && "-K" in r.value.invocation.args
      && ParsePlaybook(r.value.invocation.args)
         == Some(PlaybookParts(VerboseArgument(settings.verbose), settings.inventory, tempPaths[..|playbooks|]))
      && |r.value.written| == |playbooks|
      && (forall i :: 0 <= i < |playbooks| ==> r.value.written[i] == SavedFile(tempPaths[i], playbooks[i].fileContents))
  {
    var playbooks := PlanFor(settings.subcommand).playbooks;
    PlaybookLaunchDecodes(settings, playbooks, tempPaths);
    var flag := VerboseArgument(settings.verbose);
    var args := PlaybookArgv(PlaybookParts(flag, settings.inventory, tempPaths[..|playbooks|]));
    assert args[|OptionalArg(flag)|] == "-K";
  }
}
