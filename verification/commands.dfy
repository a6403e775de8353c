/** `run_command`: the argument vector handed to the operating system. */
module Commands {

  /** An argument vector, program name first. */
  type Command = seq<string>

  /** The argument vector `run_command(command, sudo)` executes; its result,
      `stdout.strip()`, is `Text.Strip` of the command's output. */
  function RunCommand(command: Command, sudo: bool): (argv: Command)
    ensures sudo ==> |argv| == |command| + 1 && argv[0] == "sudo" && argv[1..] == command
    ensures !sudo ==> argv == command
  {
    if sudo then ["sudo"] + command else command
  }
}
