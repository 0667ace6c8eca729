/**
 * The supervisor extension that answers the hypervisor's guest-tools requests
 * inside a container VM (lib/tether/toolbox.go).
 *
 * It holds one binding: the session of the container's main process, set by
 * Reload. Every request reads that binding. Authenticate compares a credential
 * name with the bound session's ID. Start-program understands only `kill`. Halt
 * signals the session with its stop signal and, if the supervisor does not stop
 * within the grace period, kills the process.
 *
 * What the operating system and the guest-tools protocol decide is passed in:
 * the decoding of a credential blob, the parsing of a signal name, whether
 * delivering a signal or a kill succeeds, and which of "stopped" and "grace
 * period elapsed" comes first in halt's select.
 */
module Toolbox {
  import opened Wrappers

  /** The parts of a session's configuration the toolbox uses. */
  class SessionConfig {
    const ID: string
    const StopSignal: string

    constructor (id: string, stopSignal: string)
      ensures ID == id && StopSignal == stopSignal
    {
      ID := id;
      StopSignal := stopSignal;
    }
  }

  /** The configuration handed to Reload; `Sessions` is None for a nil map. */
  datatype ExecutorConfig = ExecutorConfig(ID: string, Sessions: Option<map<string, SessionConfig>>)

  /** What the toolbox did to a session's process. */
  datatype Action = Signalled(target: SessionConfig, signum: int) | Killed(target: SessionConfig)

  datatype ToolboxError =
    /** the credential blob could not be decoded */
    | DecodeFailed
    /** no session is bound yet ("not yet initialized") */
    | NotYetInitialized
    /** the credential name is not the container's ID ("failed to verify container ID") */
    | VerifyFailed
    /** kill with no bound session ("failed to kill container: process not found") */
    | ProcessNotFound
    /** halt with no bound session ("failed to halt container: not initialized yet") */
    | HaltNotInitialized
    /** the signal name does not parse */
    | UnknownSignal(name: string)
    /** the operating system refused the signal ("failed to signal <id>") */
    | SignalFailed(id: string)
    /** a start-program request for anything but `kill` ("unknown command") */
    | UnknownCommand(path: string)
    /** the forced kill failed */
    | KillFailed(id: string)

  /** The name of SIGTERM as the signal messages spell it. */
  const SIGTERM: string := "TERM"

  /** The result code every start-program request returns. */
  const NoPid: int := -1

  /** A Go map lookup: a missing key gives nil. */
  function Lookup(sessions: map<string, SessionConfig>, id: string): SessionConfig?
  {
    if id in sessions then sessions[id] else null
  }

  /** The signal killHelper sends for a requested name: an empty name means SIGTERM. */
  function SignalName(name: string): (n: string)
    ensures n != ""
    ensures name == "" ==> n == SIGTERM
    ensures name != "" ==> n == name
  {
    if name == "" then SIGTERM else name
  }

  class Toolbox {
    /** sess.session: the bound session, nil until Reload binds one */
    var session: SessionConfig?
    /** every signal and kill delivered, in order */
    var actions: seq<Action>

    constructor ()
      ensures session == null && actions == []
    {
      session := null;
      actions := [];
    }

    /** Reload: bind the configuration's own session; a nil config or nil Sessions changes nothing. */
    method Reload(config: Option<ExecutorConfig>) returns (err: Option<ToolboxError>)
      modifies this
      ensures err == None
      ensures config.Some? && config.value.Sessions.Some? ==>
                session == Lookup(config.value.Sessions.value, config.value.ID)
      ensures !(config.Some? && config.value.Sessions.Some?) ==> session == old(session)
      ensures actions == old(actions)
    {
      if config.Some? && config.value.Sessions.Some? {
        session := Lookup(config.value.Sessions.value, config.value.ID);
      }
      return None;
    }

    /** containerAuthenticate: the credential name must be the bound session's ID. */
    method Authenticate(credential: Option<string>) returns (err: Option<ToolboxError>)
      ensures credential.None? ==> err == Some(DecodeFailed)
      ensures credential.Some? && session == null ==> err == Some(NotYetInitialized)
      ensures credential.Some? && session != null ==>
                (err == None <==> credential.value == session.ID) &&
                (err != None ==> err == Some(VerifyFailed))
    {
      if credential.None? {
        return Some(DecodeFailed);
      }
      var s := session;
      if s == null {
        return Some(NotYetInitialized);
      }
      if credential.value != s.ID {
        return Some(VerifyFailed);
      }
      return None;
    }

    /**
     * killHelper: parse the signal name (empty means SIGTERM) and deliver it.
     * Nothing is sent when the name does not parse or delivery fails.
     */
    method KillHelper(target: SessionConfig, name: string, parseSignal: string -> Option<int>, delivered: bool)
      returns (err: Option<ToolboxError>)
      modifies this
      ensures session == old(session)
      ensures parseSignal(SignalName(name)).None? ==>
                err == Some(UnknownSignal(SignalName(name))) && actions == old(actions)
      ensures parseSignal(SignalName(name)).Some? && !delivered ==>
                err == Some(SignalFailed(target.ID)) && actions == old(actions)
      ensures parseSignal(SignalName(name)).Some? && delivered ==>
                err == None && actions == old(actions) + [Signalled(target, parseSignal(SignalName(name)).value)]
    {
      var sig := SignalName(name);
      var num := parseSignal(sig);
      if num.None? {
        return Some(UnknownSignal(sig));
      }
      if !delivered {
        return Some(SignalFailed(target.ID));
      }
      actions := actions + [Signalled(target, num.value)];
      return None;
    }

    /** kill: signal the bound session; with none bound nothing is sent. */
    method Kill(name: string, parseSignal: string -> Option<int>, delivered: bool) returns (err: Option<ToolboxError>)
      modifies this
      ensures session == old(session)
      ensures old(session) == null ==> err == Some(ProcessNotFound) && actions == old(actions)
      ensures old(session) != null && parseSignal(SignalName(name)).None? ==>
                err == Some(UnknownSignal(SignalName(name))) && actions == old(actions)
      ensures old(session) != null && parseSignal(SignalName(name)).Some? && !delivered ==>
                err == Some(SignalFailed(old(session).ID)) && actions == old(actions)
      ensures old(session) != null && parseSignal(SignalName(name)).Some? && delivered ==>
                err == None && actions == old(actions) + [Signalled(old(session), parseSignal(SignalName(name)).value)]
    {
      var s := session;
      if s == null {
        return Some(ProcessNotFound);
      }
      err := KillHelper(s, name, parseSignal, delivered);
    }

    /** containerStartCommand: only `kill` is a command; every answer carries result code -1. */
    method StartCommand(programPath: string, arguments: string, parseSignal: string -> Option<int>, delivered: bool)
      returns (code: int, err: Option<ToolboxError>)
      modifies this
      ensures code == NoPid
      ensures session == old(session)
      ensures programPath != "kill" ==> err == Some(UnknownCommand(programPath)) && actions == old(actions)
      ensures programPath == "kill" && old(session) == null ==> err == Some(ProcessNotFound) && actions == old(actions)
      ensures programPath == "kill" && old(session) != null && parseSignal(SignalName(arguments)).Some? && delivered ==>
                err == None && actions == old(actions) + [Signalled(old(session), parseSignal(SignalName(arguments)).value)]
      ensures programPath == "kill" && old(session) != null && parseSignal(SignalName(arguments)).None? ==>
                err == Some(UnknownSignal(SignalName(arguments))) && actions == old(actions)
      ensures programPath == "kill" && old(session) != null && parseSignal(SignalName(arguments)).Some? && !delivered ==>
                err == Some(SignalFailed(old(session).ID)) && actions == old(actions)
    {
      if programPath == "kill" {
        err := Kill(arguments, parseSignal, delivered);
        return NoPid, err;
      }
      return NoPid, Some(UnknownCommand(programPath));
    }

    /**
     * halt: send the stop signal; if the supervisor stops before the grace
     * period elapses (`stoppedInTime`) return at once, otherwise kill the
     * process and return what the kill returned.
     */
    method Halt(parseSignal: string -> Option<int>, delivered: bool, stoppedInTime: bool, killed: bool)
      returns (err: Option<ToolboxError>)
      modifies this
      ensures session == old(session)
      ensures old(session) == null ==> err == Some(HaltNotInitialized) && actions == old(actions)
      ensures old(session) != null && parseSignal(SignalName(old(session).StopSignal)).None? ==>
                err == Some(UnknownSignal(SignalName(old(session).StopSignal))) && actions == old(actions)
      ensures old(session) != null && parseSignal(SignalName(old(session).StopSignal)).Some? && !delivered ==>
                err == Some(SignalFailed(old(session).ID)) && actions == old(actions)
      ensures old(session) != null && parseSignal(SignalName(old(session).StopSignal)).Some? && delivered ==>
                var stop := Signalled(old(session), parseSignal(SignalName(old(session).StopSignal)).value);
                if stoppedInTime then
                  err == None && actions == old(actions) + [stop]
                else if killed then
                  err == None && actions == old(actions) + [stop, Killed(old(session))]
                else
                  err == Some(KillFailed(old(session).ID)) && actions == old(actions) + [stop]
    {
      var s := session;
      if s == null {
        return Some(HaltNotInitialized);
      }
      err := KillHelper(s, s.StopSignal, parseSignal, delivered);
      if err.Some? {
        return err;
      }
      if stoppedInTime {
        return None;
      }
      if !killed {
        return Some(KillFailed(s.ID));
      }
      actions := actions + [Killed(s)];
      return None;
    }
  }
}
