/**
 * The cluster joiner (`init_or_join_swarm`). The role follows from the
 * hostname alone; a member reads the coordinator's address from the output
 * of `getent hosts dins-master` and joins on port 2377 with the token that
 * `docker swarm join-token -q manager` printed. Command outputs are inputs.
 */
module Swarm {
  import opened Wrappers
  import opened Text
  import opened Commands
  import Resolver

  /** The swarm manager port appended to the coordinator's address. */
  const ManagerPort := ":2377"

  datatype Role = Master | Member

  function RoleOf(hostname: string): Role
  {
    if hostname == Resolver.MasterName then Master else Member
  }

  const InitCommand: Command := RunCommand(["docker", "swarm", "init"], true)
  const LookupCommand: Command := RunCommand(["getent", "hosts", Resolver.MasterName], false)
  const TokenCommand: Command := RunCommand(["docker", "swarm", "join-token", "-q", "manager"], true)

  function JoinCommand(token: string, target: string): Command
  {
    RunCommand(["docker", "swarm", "join", "--token", token, target], true)
  }

  /** `run_command(["getent", ...]).split()[0]`: `None` where Python raises
      `IndexError` because the output has no field. */
  function MasterAddress(getentStdout: string): (r: Option<string>)
    ensures r.None? <==> AllSpace(getentStdout)
    ensures r.Some? ==> r.value != [] && NoSpace(r.value)
  {
    var fields := Fields(Strip(getentStdout));
    if fields == [] then None else Some(fields[0])
  }

  /** The address `getent` printed is the first whitespace-separated field of
      its output, and no other field qualifies. */
  lemma MasterAddressIsFirstField(getentStdout: string) returns (a: nat)
    requires !AllSpace(getentStdout)
    ensures MasterAddress(getentStdout).Some?
    ensures FirstFieldAt(getentStdout, a, MasterAddress(getentStdout).value)
    ensures forall a': nat, w :: FirstFieldAt(getentStdout, a', w) ==> w == MasterAddress(getentStdout).value
  {
    a := FirstFieldOfStripped(getentStdout);
    var addr := MasterAddress(getentStdout).value;
    forall a': nat, w | FirstFieldAt(getentStdout, a', w)
      ensures w == addr
    {
      FirstFieldUnique(getentStdout, a, addr, a', w);
    }
  }

  /** A field followed by whitespace is read as the address, whatever follows. */
  lemma AddressBeforeSpace(ip: string, rest: string)
    requires ip != [] && NoSpace(ip)
    requires rest == [] || IsSpace(rest[0])
    ensures MasterAddress(ip + rest) == Some(ip)
  {
    var s := ip + rest;
    assert s[0] == ip[0];
    assert s[..0] == [];
    assert s[0..|ip|] == ip;
    assert FirstFieldAt(s, 0, ip);
    var a := MasterAddressIsFirstField(s);
  }

  /** `f"{master_ip}:2377"` */
  function JoinTarget(getentStdout: string): Option<string>
  {
    match MasterAddress(getentStdout)
    case None => None
    case Some(ip) => Some(ip + ManagerPort)
  }

  /** The commands one phase issued, and whether it ran to its end. */
  datatype Phase = Phase(commands: seq<Command>, completed: bool)

  /** `init_or_join_swarm()` on a host with the given name and command outputs. */
  function InitOrJoinSwarm(hostname: string, getentStdout: string, tokenStdout: string): (p: Phase)
    ensures p.commands == [InitCommand] <==> hostname == Resolver.MasterName
    ensures InitCommand in p.commands <==> hostname == Resolver.MasterName
    ensures p.completed <==> hostname == Resolver.MasterName || !AllSpace(getentStdout)
    ensures !p.completed ==> p.commands == [LookupCommand]
    ensures hostname != Resolver.MasterName && p.completed ==>
      && |p.commands| == 3
      && p.commands[..2] == [LookupCommand, TokenCommand]
      && p.commands[2] == JoinCommand(Strip(tokenStdout), MasterAddress(getentStdout).value + ManagerPort)
  {
    match RoleOf(hostname)
    case Master => Phase([InitCommand], true)
    case Member =>
      match JoinTarget(getentStdout)
      case None => Phase([LookupCommand], false)
      case Some(target) =>
        Phase([LookupCommand, TokenCommand, JoinCommand(Strip(tokenStdout), target)], true)
  }
}
