/** The external programs the scripts start (`bcachefs`, `rclone`,
    `systemctl`, `rtcwake`, `sops`), seen from the outside: each call is
    recorded, and what it returns comes from a script of outcomes fixed in
    advance. */
module Exec {

  /** What starting a program can give: it ran and exited with a status and
      its output, or its executable does not exist (`FileNotFoundError`). */
  datatype Outcome = Exited(code: int, stdout: string, stderr: string) | NotFound
  {
    predicate Succeeded() {
      Exited? && code == 0
    }
  }

  /** An observable action of a script, in the order it happens. */
  datatype Effect =
    | Command(argv: seq<string>)
    | Slept(seconds: int)
    | DirsMade(path: string)

  /** The outcome the next call receives: the head of the script, or a plain
      failure once the script is used up. */
  function NextOutcome(script: seq<Outcome>): Outcome {
    if script == [] then Exited(1, "", "") else script[0]
  }

  function RestOf(script: seq<Outcome>): seq<Outcome> {
    if script == [] then [] else script[1..]
  }

  class Runner {
    /** Outcomes still to be handed out, in order. */
    var script: seq<Outcome>
    /** Everything done so far, oldest first. */
    var log: seq<Effect>

    constructor (script: seq<Outcome>)
      ensures this.script == script && log == []
    {
      this.script := script;
      log := [];
    }

    /** Start a program with the given argument vector and wait for it. */
    method Run(argv: seq<string>) returns (o: Outcome)
      modifies this
      ensures o == NextOutcome(old(script))
      ensures script == RestOf(old(script))
      ensures log == old(log) + [Command(argv)]
    {
      o := NextOutcome(script);
      script := RestOf(script);
      log := log + [Command(argv)];
    }

    /** `time.sleep(seconds)`. */
    method Sleep(seconds: int)
      modifies this
      ensures script == old(script)
      ensures log == old(log) + [Slept(seconds)]
    {
      log := log + [Slept(seconds)];
    }

    /** `os.makedirs(path, exist_ok=True)`. */
    method MakeDirs(path: string)
      modifies this
      ensures script == old(script)
      ensures log == old(log) + [DirsMade(path)]
    {
      log := log + [DirsMade(path)];
    }
  }
}
