/** The command surface: the first argument of the run, lower-cased and
    looked up in the program's table of commands. Splitting the argument into
    words (MyCommandLine) is the game's; it comes in as an optional list of
    words, absent when the line did not parse. */
module Commands {
  import opened Wrappers

  /** The six sensor handlers: a sensor's "object detected" and "object
      no longer detected" actions run these. */
  datatype Event =
    | InteriorEnter
    | InteriorExit
    | AirlockEnter
    | AirlockExit
    | ExteriorEnter
    | ExteriorExit

  /** An entry of the table: `Reset`, or one of the sensor handlers. */
  datatype Handler = ResetCommand | Sensor(event: Event)

  /** The name each handler is registered under. */
  function Name(h: Handler): string {
    match h
    case ResetCommand => "reset"
    case Sensor(InteriorEnter) => "interior_enter"
    case Sensor(InteriorExit) => "interior_exit"
    case Sensor(AirlockEnter) => "airlock_enter"
    case Sensor(AirlockExit) => "airlock_exit"
    case Sensor(ExteriorEnter) => "exterior_enter"
    case Sensor(ExteriorExit) => "exterior_exit"
  }

  /** `commandByArgument`, the table built in the constructor. */
  const COMMAND_BY_ARGUMENT: map<string, Handler> := map[
    "reset" := ResetCommand,
    "interior_enter" := Sensor(InteriorEnter),
    "interior_exit" := Sensor(InteriorExit),
    "airlock_enter" := Sensor(AirlockEnter),
    "airlock_exit" := Sensor(AirlockExit),
    "exterior_enter" := Sensor(ExteriorEnter),
    "exterior_exit" := Sensor(ExteriorExit)
  ]

  /** The table and the names agree both ways: every handler is found under
      its name, and every key of the table is the name of what it holds. */
  lemma TableMatchesNames(h: Handler, arg: string)
    ensures Name(h) in COMMAND_BY_ARGUMENT && COMMAND_BY_ARGUMENT[Name(h)] == h
    ensures arg in COMMAND_BY_ARGUMENT ==> Name(COMMAND_BY_ARGUMENT[arg]) == arg
  {
  }

  /** `char.ToLower` on the ASCII letters. */
  function LowerChar(c: char): (r: char)
    ensures 'A' <= c <= 'Z' ==> r as int == c as int + 32
    ensures !('A' <= c <= 'Z') ==> r == c
  {
    if 'A' <= c <= 'Z' then (c as int + 32) as char else c
  }

  /** `string.ToLower()`. */
  function Lower(s: string): (r: string)
    ensures |r| == |s|
    ensures forall i :: 0 <= i < |s| ==> r[i] == LowerChar(s[i])
    ensures forall i :: 0 <= i < |r| ==> !('A' <= r[i] <= 'Z')
  {
    seq(|s|, i requires 0 <= i < |s| => LowerChar(s[i]))
  }

  /** Lower-casing twice is lower-casing once. */
  lemma LowerIdempotent(s: string)
    ensures Lower(Lower(s)) == Lower(s)
  {
  }

  /** Lower-casing works letter by letter, so it distributes over concatenation. */
  lemma LowerAppend(a: string, b: string)
    ensures Lower(a + b) == Lower(a) + Lower(b)
  {
  }

  /** A string with no capital letter is its own lower case. */
  lemma LowerOfLower(s: string)
    requires forall i :: 0 <= i < |s| ==> !('A' <= s[i] <= 'Z')
    ensures Lower(s) == s
  {
  }

  /** How `RunCommand` reads the argument. */
  datatype Dispatch =
    | NoCommand              // the line did not parse, or has no word
    | Unknown(arg: string)   // echoed as an invalid argument
    | Known(handler: Handler)

  function Resolve(words: Option<seq<string>>): Dispatch {
    if words.None? || words.value == [] then NoCommand
    else
      var arg := Lower(words.value[0]);
      if arg in COMMAND_BY_ARGUMENT then Known(COMMAND_BY_ARGUMENT[arg]) else Unknown(arg)
  }

  /** A line selects handler `h` exactly when its first word, in any mix of
      upper and lower case, spells `h`'s name; the other words are ignored. */
  lemma ResolveKnown(words: seq<string>, h: Handler)
    ensures Resolve(Some(words)) == Known(h) <==> words != [] && Lower(words[0]) == Name(h)
  {
    if words != [] && Lower(words[0]) == Name(h) {
      TableMatchesNames(h, Name(h));
    }
    if Resolve(Some(words)) == Known(h) {
      TableMatchesNames(h, Lower(words[0]));
    }
  }

  /** Case does not matter: a lower-cased first word selects what the word did. */
  lemma ResolveIgnoresCase(first: string, rest: seq<string>)
    ensures Resolve(Some([first] + rest)) == Resolve(Some([Lower(first)] + rest))
  {
    LowerIdempotent(first);
  }

  /** A mixed-case spelling of a table key lower-cases to that key. */
  lemma LowerMixedCase()
    ensures Lower("Interior_Enter") == "interior_enter"
  {
  }
}
