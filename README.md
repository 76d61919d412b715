# clusterctl command composition, in Dafny

clusterctl is a command-line tool that manages a cluster of machines through
Ansible. Its whole subcommand set comes down to one of three external calls:

- an ad-hoc `ansible` call: one module, its `-a` parameters and a host pattern;
- an `ansible-playbook` call over one or more bundled playbooks;
- an `ansible-inventory --graph --vars` listing.

This project models the layer that composes those calls:

- the verbosity flag;
- the `AnsibleCommand` builder and its argument vector;
- the playbook aggregate and its argument vector;
- the inventory listing;
- the dispatcher that maps each subcommand, or each service name, to one of those calls.

Launching a process is replaced by returning what would be launched. That is
an `Invocation` (program name and argument vector), inside a `Launch` that
also records the playbook files written on the way. The temporary file names
are a supplied sequence of supplied paths: playbook `i` is written to path `i`.

Files and modules:

- `wrappers.dfy` (`Wrappers`): `Option` and `Result`.
- `settings.dfy` (`Settings`): the settings record the command layer reads. It holds the inventory path, the `-v` count, the host pattern and the subcommand with its options.
- `ansible.dfy` (`Ansible`): `src/commands/ansible.rs`. It contains:
  - the specification functions for both argument vectors;
  - the `AnsibleCommand` and `AnsibleAggregatePlaybook` classes;
  - the methods that build each vector step by step, each proved equal to its specification function.
- `argv_properties.dfy` (`ArgvProperties`): parsers that read both vectors back. Round trips in both directions prove the fixed layout, such as `-K -b` adjacent and only with escalation, the host pattern last, and playbook paths in insertion order.
- `parameter_properties.dfy` (`ParameterProperties`): the `-a` encoding over every iteration order of the parameter hash map. It proves which tokens are emitted, that there is one per named key, that every order emits the same tokens, and when `-a` is dropped.
- `commands.dfy` (`Commands`): `src/commands/mod.rs`, which covers the dispatch table, the service playbook selection and the unknown-service error.
- `command_builder_tests.dfy` (`CommandBuilderTests`): the builder scenario of the unit test in `ansible.rs`.

The iteration order of the Rust `HashMap` is unspecified. `AnsibleCommand.ActionArgs` therefore picks the next key with `:|`, so any order is allowed. A ghost out-parameter `order` records the order taken, and the argument vector is stated as a function of the parameters and that order.

## Model

| member | source | states |
|---|---|---|
| Ansible.Repeat | src/commands/ansible.rs:282 | `str::repeat("v", n)`: exactly `n` characters, all equal to the given one |
| Ansible.VerboseArgument | src/commands/ansible.rs:279-285 | no flag exactly for a count of 0 or above 4; for a count of 1 to 4, `-` followed by exactly that many `v`s |
| Ansible.VerboseFlagRoundTrip | src/commands/ansible.rs:279-285 | every flag `-v` to `-vvvv` is produced, by the count equal to its number of `v`s |
| Ansible.EncodeParam | src/commands/ansible.rs:131-141 | an empty name contributes nothing; any other entry gives a token that starts with the name and ends with a space, of length `name+1` for an empty value and `name+value+4` (`name="value" `) otherwise, with the value itself between the quotes |
| Ansible.EntryTokens | src/commands/ansible.rs:130-142 | at most one token per visited key, and none of them empty |
| Ansible.EntryTextStep | src/commands/ansible.rs:130-142 | visiting one more key appends that key's token to the text |
| Ansible.IntroducerStep | src/commands/ansible.rs:132-140 | `-a ` is written once, before the first non-empty token, whichever key that comes from |
| Ansible.ActionArgument | src/commands/ansible.rs:128-147 | when present, the `-a` element starts with `-a ` and then holds every token in visiting order; absent exactly when no token was emitted |
| Ansible.EnumeratesMembers | src/commands/ansible.rs:130 | an order that visits every key once visits exactly the keys of the map |
| Ansible.AdhocArgv | src/commands/ansible.rs:104-156 | the target (host pattern or `all`) is always the last element |
| Ansible.AdhocInvocationShape | src/commands/ansible.rs:104-159 | whatever the parameter order, an ad-hoc call is `ansible` with the options first, at most one `-a` element, and the target last, and has no `-a` element without parameters |
| Ansible.AppendParam | src/commands/ansible.rs:131-141 | one loop step: the text is unchanged for an empty name; otherwise `-a ` is added first if the text was empty, then the entry's token |
| Ansible.ActionArgsStep | src/commands/ansible.rs:130-141 | visiting one more key extends the enumeration by that key and changes the `-a` text exactly as one loop step does |
| Ansible.ListHosts | src/commands/ansible.rs:16-34 | `ansible-inventory` with `--graph --vars`, then `--inventory <path>` exactly when an inventory is set |
| Ansible.AnsibleCommand.constructor | src/commands/ansible.rs:45-52 | the module, escalation flag and host pattern given, with an empty parameter map |
| Ansible.AnsibleCommand.NewCopyCommand | src/commands/ansible.rs:55-63 | module `copy`, parameters exactly `{src, dest}` with the given values |
| Ansible.AnsibleCommand.NewFetchCommand | src/commands/ansible.rs:66-74 | module `fetch`, parameters exactly `{src, dest}` with the given values |
| Ansible.AnsibleCommand.NewRunCommand | src/commands/ansible.rs:76-80 | empty module name (so no `-m`); the command line as a key with an empty value, plus `chdir` only when given |
| Ansible.AnsibleCommand.NewUpdateCommand | src/commands/ansible.rs:83-89 | module `apt` with escalation, parameters exactly the four apt switches, each `yes` |
| Ansible.AnsibleCommand.WithParameter | src/commands/ansible.rs:91-94 | the key maps to the value; every other key keeps its presence and value; module, escalation and host pattern are unchanged |
| Ansible.AnsibleCommand.WithOptionalParameter | src/commands/ansible.rs:96-101 | `None` changes nothing; `Some(v)`, even an empty `v`, is the same map update as `WithParameter`; the other fields are unchanged |
| Ansible.AnsibleCommand.ActionArgs | src/commands/ansible.rs:128-147 | the loop visits every key once in some order, and builds `-a ` followed by that order's tokens, or the empty text; it is empty or starts with `-a `, and it is empty for an empty map |
| Ansible.AnsibleCommand.Run | src/commands/ansible.rs:103-163 | the `ansible` vector equals the ad-hoc layout for these fields, with the parameters in the order the loop visited them |
| Ansible.AnsiblePlaybook.Load | src/commands/ansible.rs:185-189 | the playbook holds the given text verbatim |
| Ansible.AnsiblePlaybook.Run | src/commands/ansible.rs:204-206 | running one playbook is the aggregate run over a one-element list |
| Ansible.RunAnsiblePlaybook | src/commands/ansible.rs:248-277 | the `ansible-playbook` vector is the verbosity flag, `-K`, the inventory, then one supplied path per playbook in order, each playbook written to its path |
| Ansible.AnsibleAggregatePlaybook.constructor | src/commands/ansible.rs:229-233 | an empty aggregate |
| Ansible.AnsibleAggregatePlaybook.AddPlaybook | src/commands/ansible.rs:235-237 | appends at the end and keeps every earlier playbook |
| Ansible.AnsibleAggregatePlaybook.Run | src/commands/ansible.rs:239-245 | one `ansible-playbook` call over the playbooks in insertion order |
| ArgvProperties.AdhocRoundTrip | src/commands/ansible.rs:104-156 | every well-formed set of ad-hoc pieces is read back unchanged from its vector, so the layout is unambiguous |
| ArgvProperties.AdhocParseExact | src/commands/ansible.rs:104-156 | every vector that reads back is exactly the layout of the pieces read: nothing else has the ad-hoc form |
| ArgvProperties.AdhocInvocationDecodes | src/commands/ansible.rs:103-163 | the vector of any command reads back as its verbosity flag, inventory, escalation flag, module, `-a` text and target |
| ArgvProperties.PlaybookRoundTrip | src/commands/ansible.rs:249-269 | every well-formed playbook layout is read back unchanged |
| ArgvProperties.PlaybookParseExact | src/commands/ansible.rs:249-269 | every vector that reads back is exactly the playbook layout of what was read |
| ArgvProperties.PlaybookNeverBecomes | src/commands/ansible.rs:249-269 | `-b` is never emitted by the playbook layout; it can appear only as a user-supplied inventory path or playbook path |
| ArgvProperties.PlaybookLaunchDecodes | src/commands/ansible.rs:248-277 | a playbook run calls `ansible-playbook`, and its vector reads back as the flag, the inventory and the first supplied paths |
| ArgvProperties.PlaybookLaunchPairsPaths | src/commands/ansible.rs:263-266 | playbook `i` is written to the `i`-th supplied path, with its contents, and that path is the `i`-th of the trailing paths of the vector |
| ParameterProperties.TokensPermute | src/commands/ansible.rs:130-142 | two orders visiting the same keys equally often emit the same multiset of tokens |
| ParameterProperties.TokensOrderIndependent | src/commands/ansible.rs:130-142 | every iteration order of the hash map emits the same tokens, so only their order in `-a` can differ |
| ParameterProperties.TokenOfVisit | src/commands/ansible.rs:130-142 | every visit to a key with a non-empty name emits that key's token |
| ParameterProperties.TokenOrigin | src/commands/ansible.rs:130-142 | every emitted token is the encoding of a visited key with a non-empty name, and the lemma returns that visit |
| ParameterProperties.TokenCount | src/commands/ansible.rs:130-142 | one token per visited key, minus the visits to the empty name |
| ParameterProperties.NamedKeysEmit | src/commands/ansible.rs:130-142 | every parameter with a non-empty name emits its token |
| ParameterProperties.TokensFromNamedKeys | src/commands/ansible.rs:130-142 | every token comes from a parameter with a non-empty name |
| ParameterProperties.TokenTotal | src/commands/ansible.rs:130-142 | exactly as many tokens as parameters with a non-empty name |
| ParameterProperties.ActionArgumentOmitted | src/commands/ansible.rs:128-147 | the `-a` element is left out exactly when the map is empty or its only key is the empty name |
| ParameterProperties.TwoKeyTokens | src/commands/ansible.rs:60-73 | a map with two distinct keys, such as copy's and fetch's `src` and `dest`, emits exactly their two tokens |
| ParameterProperties.RunCommandTokens | src/commands/ansible.rs:76-80 | a raw command emits `<command> ` and, when given, the encoding of `chdir` and the directory: `chdir="<dir>" `, or the bare `chdir ` for an empty directory; an empty command line emits nothing, and a command line that is literally `chdir` is overwritten by the directory |
| Commands.UnknownServiceMessage | src/commands/mod.rs:101 | the text is `Unknown service '`, the service name, then `', can't deploy` |
| Commands.ServicePlaybooks | src/commands/mod.rs:95-116 | no playbooks exactly for a name other than `kubernetes` or `docker`; otherwise one or two |
| Commands.PlanFor | src/commands/mod.rs:37-87 | only a service subcommand can fail, and only for an unknown service; an ad-hoc call comes from every subcommand except inventory and service, and escalates exactly for reboot, shutdown, update, and run when asked |
| Commands.RunDeployService | src/commands/mod.rs:91-107 | kubernetes runs [install-kubernetes, setup-kubernetes-cluster] in that order; docker runs [install-docker]; any other name is `Err` with the unknown-service text and nothing run |
| Commands.RunDeleteService | src/commands/mod.rs:109-123 | kubernetes runs [uninstall-kubernetes]; docker runs [uninstall-docker]; any other name is the same `can't deploy` error |
| Commands.NewCommandFor | src/commands/mod.rs:38-86 | the command built for an ad-hoc subcommand has the planned module, escalation and parameters, and the settings' host pattern |
| Commands.Run | src/commands/mod.rs:35-88 | every subcommand does what its plan says: the ad-hoc call with its parameters in the visited order, the inventory listing, the service playbook run, or the error; it fails exactly when the plan does, and an ad-hoc subcommand calls `ansible` and writes no file |
| Commands.AdhocDispatchDecodes | src/commands/mod.rs:38-86 | every ad-hoc subcommand's vector reads back with the settings' flag and inventory, its module, `-K -b` exactly when it escalates, and the host pattern or `all`; no file is written |
| Commands.ServiceDispatchDecodes | src/commands/mod.rs:91-123 | a known service writes its playbooks in order to supplied paths and passes exactly those paths, in order, to one `ansible-playbook` call with `-K` |
| CommandBuilderTests.CommandsWithParametersAreBuilt | src/commands/ansible.rs:310-334 | the builder keeps module and escalation, holds both parameters, and holds the optional one exactly when it is given, even when it is empty |

## Left out

- Process execution (`Command::new(..).status()`) is not modelled. Every operation returns the program and argument vector it would launch, not an exit status, and `Result` errors from the operating system are not modelled.
- `save_to_file` is filesystem I/O that panics on failure. It is replaced by a supplied sequence of temporary paths; each write is recorded as a `SavedFile` of path and contents.
- Ansible.RunAnsiblePlaybook, Ansible.AnsibleAggregatePlaybook.Run and ArgvProperties' playbook lemmas require at least one temporary path per playbook; Ansible.AnsiblePlaybook.Run and Commands.RunDeleteService require at least one; Commands.RunDeployService and Commands.Run require at least two, whatever the subcommand or service. In the program the temporary-file library supplies the names. It also guarantees that they are distinct; the model does not assume that, and nothing proved depends on it.
- `check_syntax` (src/commands/ansible.rs:208-220) is a test helper that runs `ansible-playbook --syntax-check`, and `get_available_playbooks` (src/commands/ansible.rs:172-183) is a test helper that only loads the five bundled playbooks; neither is used outside the tests, so neither is modelled.
- The playbook YAML compiled in with `include_str!` is not modelled. Five distinct constant strings stand for the five files.
- `info!` and `error!` logging is not modelled; it is observable output only.
- Ansible.VerboseArgument: a count above 4 gives no flag at all; it does not saturate at `-vvvv` (src/commands/ansible.rs:283).
- Ansible.AnsibleCommand.Run: the `HashMap` iteration order is modelled as any order, recorded in a ghost sequence. The properties about tokens hold for every order, and none depends on a particular one.
- Ansible.AnsibleCommand.ActionArgs and Ansible.AppendParam: the parameter loop of `run` is split out of it as a method of its own, and the loop body, with both of its branches, is the single method `AppendParam`.
- Values are not escaped or quoted beyond the literal `"` the code adds, and no escaping contract is stated.
- There is no per-playbook abort: all playbooks go to one call, as in the code.
- The verbosity count is a `nat`. The source's `u64` count and its `try_into().unwrap()` conversion to `usize` cannot matter for counts 1 to 4.
- `with_parameter` and `with_optional_parameter` consume and return `self` in Rust. Here they mutate the object in place; the constructors build a fresh object that nothing else references.
- ArgvProperties.PlaybookNeverBecomes is weaker than "`-b` never appears", because a user-supplied inventory path or a temporary path could itself be `-b`. ArgvProperties.PlaybookLaunchDecodes and Commands.ServiceDispatchDecodes require that, without an inventory, the first temporary path is not `--inventory`.
- `src/utils/settings.rs`, `src/main.rs`, `src/cli/src/main.rs`, `src/utils/logging.rs` and `src/commands/update_command.rs` are not part of this model. The settings record instead has the shape the command layer reads.
