/** agent.go: the `/AgentMode` options that start the designer as an SSH/SFTP agent. */
module Agent {
  import opened Types

  /** `AgentModeOptions`. The record has no embedded launch settings: it answers
      `Command` and `Check` itself. */
  datatype AgentModeOptions = AgentModeOptions(
    baseDir: string,
    port: Int64,
    listenAddress: string,
    sshHostKeyAuto: bool,
    sshHostKey: string,
    visible: bool)
  {
    /** Sets the working directory; nothing else changes. */
    function WithBaseDir(dir: string): (o: AgentModeOptions)
      ensures o.baseDir == dir
      ensures o.(baseDir := baseDir) == this
    {
      this.(baseDir := dir)
    }

    /** Sets the listen address and port from `host:port`. `split` stands for
        `net.SplitHostPort` (`None` when it fails, in which case Go yields two empty
        strings) and `parse` for the value `strconv.ParseInt(…, 10, 64)` returns. Both
        errors are discarded, so the builder never fails; only the address and the port
        change. */
    function WithListenAddress(ipPort: string, split: string -> Option<(string, string)>,
                               parse: string -> Int64): (o: AgentModeOptions)
      ensures split(ipPort).Some? ==>
        o.listenAddress == split(ipPort).value.0 && o.port == parse(split(ipPort).value.1)
      ensures split(ipPort).None? ==> o.listenAddress == "" && o.port == parse("")
      ensures o.(listenAddress := listenAddress, port := port) == this
    {
      var (host, portString) := match split(ipPort)
        case Some(hp) => hp
        case None => ("", "");
      this.(listenAddress := host, port := parse(portString))
    }
  }

  /** `AgentModeOptions.Command`: the agent always runs the designer. */
  function Command(o: AgentModeOptions): (name: string)
    ensures name == "DESIGNER"
  {
    CommandDesigner
  }

  const HostKeyError := CheckError("ssh host key must be set", "msg",
    "field SSHHostKeyAuto or SSHHostKey not set")

  /** `AgentModeOptions.Check`: fails, with one failure, exactly when neither the automatic
      host key nor an explicit host key is given. */
  function Check(o: AgentModeOptions): (errs: seq<CheckError>)
    ensures errs == [] <==> (o.sshHostKeyAuto || |o.sshHostKey| > 0)
    ensures errs != [] ==> errs == [HostKeyError]
  {
    if !o.sshHostKeyAuto && |o.sshHostKey| == 0 then [HostKeyError] else []
  }

  /** With the automatic host key the check passes whatever the explicit key is, and the
      builders never change the outcome of the check. */
  lemma CheckDependsOnHostKeyOnly(o: AgentModeOptions, key: string, dir: string, ipPort: string,
                                  split: string -> Option<(string, string)>, parse: string -> Int64)
    ensures Check(o.(sshHostKeyAuto := true, sshHostKey := key)) == []
    ensures Check(o.WithBaseDir(dir)) == Check(o)
    ensures Check(o.WithListenAddress(ipPort, split, parse)) == Check(o)
  {
  }
}
