/** How execute_bash reports a command it ran. Running the command is outside the
    model: the shell's answer arrives as a `CommandOutcome`, and this module fixes the
    exact text the caller receives for it. */
module Executor {
  import opened Arguments

  /** What the promisified `exec` settles with: the captured streams of a command
      that exited with status 0, or the message of the error it rejected with
      (non-zero exit, command not found, a non-string command, ...). */
  datatype CommandOutcome = Completed(stdout: string, stderr: string) | Failed(message: string)

  /** The first line of every report. */
  function Header(command: string): string
  {
    "Command: " + command + "\n"
  }

  /** The segment appended after stdout; the empty string when stderr is empty. */
  function ErrorSegment(stderr: string): string
  {
    if stderr != "" then "\nError:\n" + stderr else ""
  }

  /** The text of the execute_bash result for a command that was run. */
  function Render(command: string, outcome: CommandOutcome): (text: string)
    ensures Header(command) <= text
    ensures outcome.Completed? ==> Header(command) + "Output:\n" <= text
    ensures outcome.Failed? ==> Header(command) + "Error: " <= text
  {
    match outcome
    case Completed(stdout, stderr) => Header(command) + "Output:\n" + stdout + ErrorSegment(stderr)
    case Failed(message) => Header(command) + "Error: " + message
  }

  /** What a reader who knows the command recovers from a report of a failure. */
  function ReadFailure(command: string, text: string): Option<string>
  {
    var prefix := Header(command) + "Error: ";
    if prefix <= text then Some(text[|prefix|..]) else None
  }

  /** What a reader who knows the command recovers from a report of a completed
      command: everything after the `Output:` line. */
  function ReadOutput(command: string, text: string): Option<string>
  {
    var prefix := Header(command) + "Output:\n";
    if prefix <= text then Some(text[|prefix|..]) else None
  }

  /** The two kinds of report are told apart by the word after the header. */
  lemma KindsDiffer(command: string, a: string, b: string)
    ensures !(Header(command) + "Output:\n" <= Header(command) + "Error: " + b)
    ensures !(Header(command) + "Error: " <= Header(command) + "Output:\n" + a)
  {
    var n := |Header(command)|;
    assert (Header(command) + "Output:\n")[n] == 'O';
    assert (Header(command) + "Error: " + b)[n] == 'E';
    assert (Header(command) + "Error: ")[n] == 'E';
    assert (Header(command) + "Output:\n" + a)[n] == 'O';
  }

  /** A failure report gives back exactly the error message, and does not read as a
      completed command. */
  lemma FailureRoundTrip(command: string, message: string)
    ensures ReadFailure(command, Render(command, Failed(message))) == Some(message)
    ensures ReadOutput(command, Render(command, Failed(message))) == None
  {
    var prefix := Header(command) + "Error: ";
    assert Render(command, Failed(message)) == prefix + message;
    assert (prefix + message)[|prefix|..] == message;
    KindsDiffer(command, "", message);
  }

  /** A completed report gives back stdout followed by the stderr segment, and does
      not read as a failure. */
  lemma CompletedRoundTrip(command: string, stdout: string, stderr: string)
    ensures ReadOutput(command, Render(command, Completed(stdout, stderr))) == Some(stdout + ErrorSegment(stderr))
    ensures ReadFailure(command, Render(command, Completed(stdout, stderr))) == None
  {
    var prefix := Header(command) + "Output:\n";
    var rest := stdout + ErrorSegment(stderr);
    assert Render(command, Completed(stdout, stderr)) == prefix + rest;
    assert (prefix + rest)[|prefix|..] == rest;
    KindsDiffer(command, rest, "");
  }

  /** The `Error:` segment is there exactly when stderr is non-empty: with empty
      stderr the report is the header, the `Output:` line and stdout, nothing more. */
  lemma ErrorSegmentIffStderr(command: string, stdout: string, stderr: string)
    ensures Render(command, Completed(stdout, stderr)) == Header(command) + "Output:\n" + stdout
            <==> stderr == ""
  {
    if stderr != "" {
      assert |Render(command, Completed(stdout, stderr))| > |Header(command) + "Output:\n" + stdout|;
    }
  }

  /** The format does not separate the streams: a command that writes to stderr is
      reported exactly like one whose stdout ends with an `Error:` line and that text. */
  lemma StreamsIndistinguishable(command: string, stdout: string, stderr: string)
    requires stderr != ""
    ensures Render(command, Completed(stdout, stderr))
         == Render(command, Completed(stdout + "\nError:\n" + stderr, ""))
  {
  }
}
