/**
 * The builder scenario of the command layer's own unit test: a command with
 * two parameters and an optional third one, built for both escalation
 * settings and for an absent, and a present but empty, optional value.
 */
module CommandBuilderTests {
  import opened Wrappers
  import opened Ansible

  /** Builds `my_command` with `param1`, `param2` and the optional `opt_param1`, and states what the test checks. */
  method CommandsWithParametersAreBuilt(optionalParameter: Option<string>, needsBecome: bool)
    returns (command: AnsibleCommand)
    ensures command.command == "my_command" && command.needsBecome == needsBecome
    ensures "param1" in command.parameters && command.parameters["param1"] == "param1_value"
    ensures "param2" in command.parameters && command.parameters["param2"] == "param2_value"
    ensures optionalParameter.Some? ==>
      "opt_param1" in command.parameters && command.parameters["opt_param1"] == optionalParameter.value
    ensures optionalParameter.None? ==> "opt_param1" !in command.parameters
  {
    command := new AnsibleCommand("my_command", needsBecome, None);
    command.WithParameter("param1", "param1_value");
    command.WithParameter("param2", "param2_value");
    command.WithOptionalParameter("opt_param1", optionalParameter);
  }
}
