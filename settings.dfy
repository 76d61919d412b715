/**
 * The parsed command line the command layer reads: the inventory path, the
 * number of `-v` occurrences, the optional host pattern and the subcommand
 * with its options.
 */
module Settings {
  import opened Wrappers

  /** `service deploy <name>` and `service delete <name>`. */
  datatype ServiceSubCommand = Deploy(service: string) | Delete(service: string)

  /** `inventory list`, the only inventory subcommand. */
  datatype InventorySubCommand = List

  /** Every subcommand with exactly the options the dispatcher reads from it. */
  datatype SubCommand =
    | Copy(src: string, dest: string)
    | Fetch(src: string, dest: string)
    | Inventory(inventoryCommand: InventorySubCommand)
    | Ping
    | Reboot
    | Run(command: string, needsBecome: bool, chdir: Option<string>)
    | Service(serviceCommand: ServiceSubCommand)
    | Shutdown
    | Ssh
    | Update
    | Uptime

  /** The global settings: `--inventory`, the `-v` count, the host pattern and the subcommand. */
  datatype ClusterSettings = ClusterSettings(
    inventory: Option<string>,
    verbose: nat,
    hostPattern: Option<string>,
    subcommand: SubCommand)
}
