/**
 * The shared-secret gate of cluster-manager (cluster-manager/main.go): the
 * HTTP middleware and the websocket terminal handler both compare the
 * X-Cluster-Manager-Secret header with the configured secret, and an empty
 * secret disables the check. A missing header reads as the empty string.
 */
module Gate {

  const StatusUnauthorized := 401

  /** What authMiddleware does with a request. */
  datatype Decision = CallNext | Unauthorized(code: int, message: string)

  /** The one rule both entry points apply. */
  predicate Admitted(secret: string, provided: string)
  {
    secret == "" || provided == secret
  }

  /** authMiddleware: check the header only when a secret is configured. */
  function Authorize(secret: string, provided: string): (d: Decision)
    ensures d.CallNext? <==> Admitted(secret, provided)
    ensures d.Unauthorized? ==> d.code == StatusUnauthorized && d.message == "unauthorized"
  {
    if secret != "" && provided != secret then Unauthorized(StatusUnauthorized, "unauthorized")
    else CallNext
  }

  /** What handleTerminal does: close the socket, or start a session running argv with env. */
  datatype TerminalStart = CloseSocket | StartSession(argv: seq<string>, env: seq<string>)

  const DefaultShell: string := "/bin/bash"
  const SessionVars: seq<string> := ["TERM=xterm-256color", "HOME=/root", "USER=root"]

  /** The SHELL environment variable, or /bin/bash when it is empty or unset. */
  function ShellFor(shellVar: string): (shell: string)
    ensures shell != ""
    ensures shellVar != "" ==> shell == shellVar
    ensures shellVar == "" ==> shell == DefaultShell
  {
    if shellVar == "" then DefaultShell else shellVar
  }

  /**
   * handleTerminal: on a secret mismatch the socket is closed and no session
   * starts; otherwise the login shell runs chrooted to the host root, with
   * three variables appended to the server's environment.
   */
  function Terminal(secret: string, provided: string, shellVar: string, hostRoot: string, environ: seq<string>)
    : (t: TerminalStart)
    ensures t.StartSession? <==> Admitted(secret, provided)
    ensures t.StartSession? ==>
      && t.argv == ["chroot", hostRoot, ShellFor(shellVar), "-l"]
      && |t.env| == |environ| + |SessionVars|
      && t.env[..|environ|] == environ
      && t.env[|environ|..] == SessionVars
  {
    if secret != "" && provided != secret then CloseSocket
    else StartSession(["chroot", hostRoot, ShellFor(shellVar), "-l"], environ + SessionVars)
  }

  /**
   * The websocket terminal is admitted under exactly the rule of the HTTP
   * middleware, and with no secret configured everything is admitted.
   */
  lemma SameRule(secret: string, provided: string, shellVar: string, hostRoot: string, environ: seq<string>)
    ensures Terminal(secret, provided, shellVar, hostRoot, environ).StartSession? <==> Authorize(secret, provided).CallNext?
    ensures secret == "" ==> Authorize(secret, provided).CallNext?
    ensures secret != "" ==> (Authorize(secret, provided).CallNext? <==> provided == secret)
  {
  }
}
