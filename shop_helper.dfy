/** The device bridge of the MCP server: the check that a device is
    listed by `adb devices`, the single-quoting of the instruction for the
    device's shell (the POSIX idiom of IEEE Std 1003.1-2017, Shell Command
    Language, sections 2.2.1 Escape Character and 2.2.2 Single-Quotes),
    and `shop_helper`'s sequence of device commands with its bounded wait
    for the result file. The outcomes of the device commands are inputs;
    the commands issued are an output. */
module ShopHelper {
  import opened Wrappers
  import opened Text

  // ---------------------------------------------------------------- quoting

  /** `s.replace("'", "'\\''")`: each single quote becomes quote,
      backslash, quote, quote; every other character is copied. */
  function EscapeQuotes(s: string): (r: string)
    ensures |r| == |s| + 3 * CountChar(s, '\'')
  {
    if s == [] then []
    else (if s[0] == '\'' then "'\\''" else [s[0]]) + EscapeQuotes(s[1..])
  }

  /** Escaping works character by character. */
  lemma {:induction false} EscapeQuotesAppend(a: string, b: string)
    ensures EscapeQuotes(a + b) == EscapeQuotes(a) + EscapeQuotes(b)
  {
    if a != [] {
      assert (a + b)[0] == a[0] && (a + b)[1..] == a[1..] + b;
      EscapeQuotesAppend(a[1..], b);
    } else {
      assert a + b == b;
    }
  }

  /** A text without single quotes is copied as it is. */
  lemma {:induction false} EscapeQuotesPlain(s: string)
    requires '\'' !in s
    ensures EscapeQuotes(s) == s
  {
    if s != [] {
      EscapeQuotesPlain(s[1..]);
    }
  }

  /** The word `shop_helper` hands to the device's shell. */
  function ShellQuote(command: string): (r: string)
    ensures |r| == |command| + 2 + 3 * CountChar(command, '\'')
    ensures r[0] == '\'' && r[|r| - 1] == '\''
  {
    "'" + EscapeQuotes(command) + "'"
  }

  /** The characters that the shell treats specially outside quotes. */
  predicate Special(c: char) {
    c in " \t\n|&;<>()$`\\\"'*?[#~="
  }

  function Prepend(c: char, w: Option<string>): Option<string> {
    if w.None? then None else Some([c] + w.value)
  }

  /** The one word a shell reads from `s`, quote removal done: inside
      single quotes every character stands for itself up to the closing
      quote; outside, a backslash keeps the next character (and removes a
      newline), a single quote opens a quoted part, and any other special
      character is refused. `None` when `s` is not one such word. */
  function ShellWord(s: string, quoted: bool): Option<string>
    decreases |s|
  {
    if s == [] then (if quoted then None else Some([]))
    else if quoted then
      if s[0] == '\'' then ShellWord(s[1..], false) else Prepend(s[0], ShellWord(s[1..], true))
    else if s[0] == '\'' then ShellWord(s[1..], true)
    else if s[0] == '\\' then
      if |s| < 2 then None
      else if s[1] == '\n' then ShellWord(s[2..], false)
      else Prepend(s[1], ShellWord(s[2..], false))
    else if Special(s[0]) then None
    else Prepend(s[0], ShellWord(s[1..], false))
  }

  function PrependAll(x: string, w: Option<string>): Option<string> {
    if w.None? then None else Some(x + w.value)
  }

  /** Inside quotes, an escaped single quote closes the quoted part, gives
      a quote by the backslash and opens a new quoted part. */
  lemma EscapedQuoteStep(rest: string)
    ensures ShellWord("'\\''" + rest, true) == Prepend('\'', ShellWord(rest, true))
  {
    var s := "'\\''" + rest;
    var t := s[1..];
    var u := "'" + rest;
    assert s[0] == '\'' && t[0] == '\\' && t[1] == '\'' && |t| >= 2;
    assert t[2..] == u && u[0] == '\'' && u[1..] == rest;
    calc {
      ShellWord(s, true);
      ShellWord(t, false);
      Prepend('\'', ShellWord(u, false));
      Prepend('\'', ShellWord(rest, true));
    }
  }

  /** Inside quotes, any other character stands for itself. */
  lemma PlainStep(c: char, rest: string)
    requires c != '\''
    ensures ShellWord([c] + rest, true) == Prepend(c, ShellWord(rest, true))
  {
    assert ([c] + rest)[1..] == rest;
  }

  /** The escaped text, the closing quote and what follows, split after
      the escape of the first character. */
  lemma EscapeCons(x: string, tail: string)
    requires x != []
    ensures EscapeQuotes(x) + "'" + tail
      == (if x[0] == '\'' then "'\\''" else [x[0]]) + (EscapeQuotes(x[1..]) + "'" + tail)
  {
    var e := if x[0] == '\'' then "'\\''" else [x[0]];
    var r := EscapeQuotes(x[1..]);
    assert EscapeQuotes(x) == e + r;
    assert e + r + "'" + tail == e + (r + "'" + tail);
  }

  /** Reading the escaped text inside quotes up to the closing quote gives
      the text back, then goes on after the quote. */
  lemma {:induction false} QuotedRoundTrip(x: string, tail: string)
    ensures ShellWord(EscapeQuotes(x) + "'" + tail, true) == PrependAll(x, ShellWord(tail, false))
  {
    if x == [] {
      assert EscapeQuotes(x) + "'" + tail == "'" + tail;
      assert ("'" + tail)[1..] == tail;
      var w := ShellWord(tail, false);
      if w.Some? {
        assert x + w.value == w.value;
      }
    } else {
      var rest := EscapeQuotes(x[1..]) + "'" + tail;
      var w := ShellWord(tail, false);
      QuotedRoundTrip(x[1..], tail);
      EscapeCons(x, tail);
      if x[0] == '\'' {
        EscapedQuoteStep(rest);
      } else {
        PlainStep(x[0], rest);
      }
      calc {
        ShellWord(EscapeQuotes(x) + "'" + tail, true);
        Prepend(x[0], ShellWord(rest, true));
        Prepend(x[0], PrependAll(x[1..], w));
        { PrependCons(x, w); }
        PrependAll(x, w);
      }
    }
  }

  lemma PrependCons(x: string, w: Option<string>)
    requires x != []
    ensures Prepend(x[0], PrependAll(x[1..], w)) == PrependAll(x, w)
  {
    if w.Some? {
      assert [x[0]] + (x[1..] + w.value) == x + w.value;
    }
  }

  /** The shell reads the quoted word back as exactly the command. */
  lemma ShellQuoteRoundTrip(command: string)
    ensures ShellWord(ShellQuote(command), false) == Some(command)
  {
    var s := ShellQuote(command);
    assert s[1..] == EscapeQuotes(command) + "'" + [];
    QuotedRoundTrip(command, []);
    assert command + [] == command;
  }

  // ---------------------------------------------------------------- adb devices

  /** How `adb devices` ran: it printed its list, exited with an error
      (described as Python prints it), or `adb` is not installed. */
  datatype AdbRun = Listed(stdout: string) | AdbFailed(description: string) | AdbMissing

  const NoDevices := "No devices connected via ADB"
  const DeviceConnected := "ADB device connected"
  const AdbNotFound := "ADB not found in PATH"

  /** `check_adb_connection`: connected exactly when the stripped listing
      has more than one line, that is when it holds a newline. */
  function CheckAdbConnection(run: AdbRun): (r: (bool, string))
    ensures r.0 <==> run.Listed? && '\n' in Strip(run.stdout, IsPySpace)
    ensures run.Listed? ==> r.1 == if r.0 then DeviceConnected else NoDevices
    ensures run.AdbFailed? ==> r.1 == "ADB error: " + run.description
    ensures run == AdbMissing ==> r.1 == AdbNotFound
  {
    match run
    case Listed(stdout) =>
      var lines := SplitOn(Strip(stdout, IsPySpace), '\n');
      CountCharPositive(Strip(stdout, IsPySpace), '\n');
      if |lines| <= 1 then (false, NoDevices) else (true, DeviceConnected)
    case AdbFailed(description) => (false, "ADB error: " + description)
    case AdbMissing => (false, AdbNotFound)
  }

  /** A character occurs exactly when it is counted. */
  lemma {:induction false} CountCharPositive(s: string, c: char)
    ensures CountChar(s, c) > 0 <==> c in s
  {
    if s != [] {
      CountCharPositive(s[1..], c);
      assert s == [s[0]] + s[1..];
    }
  }

  /** A header line without a newline, followed by nothing but white
      space, means no device. */
  lemma HeaderOnlyIsNoDevice(header: string, pad: string)
    requires '\n' !in header
    requires AllSpace(pad, IsPySpace)
    ensures CheckAdbConnection(Listed(header + pad)) == (false, NoDevices)
  {
    StripPadded(header, pad, IsPySpace, '\n');
  }

  // ---------------------------------------------------------------- shop_helper

  /** How a device command run with `check=True` went: its output, or the
      error Python raises for a non-zero exit (its text and the captured
      standard error). */
  datatype Run = Ran(stdout: string) | ProcessFailed(description: string, stderr: string)

  /** The device commands `shop_helper` issues. */
  datatype DeviceCommand = RemoveResult | StartCommand(escaped: string) | PollResult | ReadResult

  /** The dictionary the tool returns. */
  datatype ToolResult = Success(result: string) | Failure(error: string, stderr: Option<string>)

  const MaxWaitSeconds := 90
  const TimedOut := "Command timed out after 90 seconds"

  /** The answer for a device command that failed. */
  function ExecutionFailed(description: string, stderr: string): ToolResult {
    Failure("Command execution failed: " + description, Some(stderr))
  }

  /** The poll, from `from` on, at which the result file is first seen
      (`poll(k)` is the output of poll `k`), or 90 if it is not seen before
      the limit. */
  function FirstSeen(poll: nat -> string, from: nat): (r: nat)
    requires from <= MaxWaitSeconds
    ensures from <= r <= MaxWaitSeconds
    ensures forall k :: from <= k < r ==> !Contains(poll(k), "exists")
    ensures r < MaxWaitSeconds ==> Contains(poll(r), "exists")
    decreases MaxWaitSeconds - from
  {
    if from == MaxWaitSeconds then MaxWaitSeconds
    else if Contains(poll(from), "exists") then from
    else FirstSeen(poll, from + 1)
  }

  /** `n` polls of the result file. */
  function Polls(n: nat): seq<DeviceCommand> {
    seq(n, k => PollResult)
  }

  /** The first sighting is fixed by the polls alone: a poll that shows
      the file (or the limit) with none showing it before is the one. */
  lemma {:induction false} FirstSeenFrom(poll: nat -> string, from: nat, at: nat)
    requires from <= at <= MaxWaitSeconds
    requires forall k :: from <= k < at ==> !Contains(poll(k), "exists")
    requires at == MaxWaitSeconds || Contains(poll(at), "exists")
    ensures FirstSeen(poll, from) == at
    decreases at - from
  {
    if from < at {
      FirstSeenFrom(poll, from + 1, at);
    }
  }

  /** The wait for the result file: polls once a second until the file is
      seen, at most 90 times. Answers how many polls were made and whether
      the file was seen. */
  method WaitForResultFile(poll: nat -> string) returns (polls: nat, resultFileExists: bool)
    ensures resultFileExists <==> FirstSeen(poll, 0) < MaxWaitSeconds
    ensures polls == if resultFileExists then FirstSeen(poll, 0) + 1 else MaxWaitSeconds
  {
    var waitTime := 0;
    resultFileExists := false;
    while waitTime < MaxWaitSeconds
      invariant 0 <= waitTime <= MaxWaitSeconds
      invariant forall k :: 0 <= k < waitTime ==> !Contains(poll(k), "exists")
    {
      if Contains(poll(waitTime), "exists") {
        resultFileExists := true;
        break;
      }
      waitTime := waitTime + 1;
    }
    FirstSeenFrom(poll, 0, waitTime);
    polls := if resultFileExists then waitTime + 1 else waitTime;
  }

  /** The wait for the result file, then its reading, after the commands
      `issuedBefore`: the polls made and, when the file was seen, the read,
      whose output is the result. */
  method AwaitResult(issuedBefore: seq<DeviceCommand>, poll: nat -> string, read: Run)
    returns (issued: seq<DeviceCommand>, result: ToolResult)
    ensures FirstSeen(poll, 0) == MaxWaitSeconds ==>
      issued == issuedBefore + Polls(MaxWaitSeconds) && result == Failure(TimedOut, None)
    ensures FirstSeen(poll, 0) < MaxWaitSeconds ==>
      issued == issuedBefore + Polls(FirstSeen(poll, 0) + 1) + [ReadResult]
      && result == (if read.Ran? then Success(read.stdout) else ExecutionFailed(read.description, read.stderr))
    ensures |issued| >= |issuedBefore| && forall k :: 0 <= k < |issuedBefore| ==> issued[k] == issuedBefore[k]
  {
    var polls, resultFileExists := WaitForResultFile(poll);
    issued := issuedBefore + Polls(polls);
    if !resultFileExists {
      return issued, Failure(TimedOut, None);
    }
    issued := issued + [ReadResult];
    match read {
      case Ran(stdout) => result := Success(stdout);
      case ProcessFailed(description, stderr) => result := ExecutionFailed(description, stderr);
    }
  }

  /** The commands `shop_helper` sends once a device is connected: the
      old result file is removed, the quoted command is started, the result
      file is polled until it is seen, at most 90 times, and then read; a
      failing command ends the run with its error. */
  method RunOnDevice(command: string, remove: Run, start: Run, poll: nat -> string, read: Run)
    returns (issued: seq<DeviceCommand>, result: ToolResult)
    ensures remove.ProcessFailed? ==>
      issued == [RemoveResult] && result == ExecutionFailed(remove.description, remove.stderr)
    ensures remove.Ran? && start.ProcessFailed? ==>
      issued == [RemoveResult, StartCommand(ShellQuote(command))]
      && result == ExecutionFailed(start.description, start.stderr)
    ensures remove.Ran? && start.Ran? && FirstSeen(poll, 0) == MaxWaitSeconds ==>
      issued == [RemoveResult, StartCommand(ShellQuote(command))] + Polls(MaxWaitSeconds)
      && result == Failure(TimedOut, None)
    ensures remove.Ran? && start.Ran? && FirstSeen(poll, 0) < MaxWaitSeconds ==>
      issued == [RemoveResult, StartCommand(ShellQuote(command))] + Polls(FirstSeen(poll, 0) + 1) + [ReadResult]
      && result == (if read.Ran? then Success(read.stdout) else ExecutionFailed(read.description, read.stderr))
    ensures remove.Ran? ==> |issued| >= 2 && issued[1] == StartCommand(ShellQuote(command))
  {
    issued := [RemoveResult];
    if remove.ProcessFailed? {
      return issued, ExecutionFailed(remove.description, remove.stderr);
    }
    var escaped := ShellQuote(command);
    issued := [RemoveResult, StartCommand(escaped)];
    if start.ProcessFailed? {
      return issued, ExecutionFailed(start.description, start.stderr);
    }
    issued, result := AwaitResult(issued, poll, read);
  }

  /** `shop_helper`: without a connected device the adb message is the
      error and nothing is sent to the device; otherwise the device run. */
  method ShopHelperRun(command: string, adb: AdbRun, remove: Run, start: Run, poll: nat -> string, read: Run)
    returns (issued: seq<DeviceCommand>, result: ToolResult)
    ensures !CheckAdbConnection(adb).0 ==> issued == [] && result == Failure(CheckAdbConnection(adb).1, None)
    ensures CheckAdbConnection(adb).0 && remove.ProcessFailed? ==>
      issued == [RemoveResult] && result == ExecutionFailed(remove.description, remove.stderr)
    ensures CheckAdbConnection(adb).0 && remove.Ran? && start.ProcessFailed? ==>
      issued == [RemoveResult, StartCommand(ShellQuote(command))]
      && result == ExecutionFailed(start.description, start.stderr)
    ensures CheckAdbConnection(adb).0 && remove.Ran? && start.Ran? && FirstSeen(poll, 0) == MaxWaitSeconds ==>
      issued == [RemoveResult, StartCommand(ShellQuote(command))] + Polls(MaxWaitSeconds)
      && result == Failure(TimedOut, None)
    ensures CheckAdbConnection(adb).0 && remove.Ran? && start.Ran? && FirstSeen(poll, 0) < MaxWaitSeconds ==>
      issued == [RemoveResult, StartCommand(ShellQuote(command))] + Polls(FirstSeen(poll, 0) + 1) + [ReadResult]
      && result == (if read.Ran? then Success(read.stdout) else ExecutionFailed(read.description, read.stderr))
    ensures CheckAdbConnection(adb).0 && remove.Ran? ==> |issued| >= 2 && issued[1] == StartCommand(ShellQuote(command))
  {
    var connected := CheckAdbConnection(adb);
    if !connected.0 {
      return [], Failure(connected.1, None);
    }
    issued, result := RunOnDevice(command, remove, start, poll, read);
  }

  const WebSearchLead := "Open chrome and do a web search, scroll down a bit to ensure you can see a set of results and report back, when finished, make sure you go back so browser is clean state. Topic: "

  /** The instruction `web_search` sends: the fixed lead, then the topic
      as given. */
  function WebSearchCommand(topic: string): (c: string)
    ensures |WebSearchLead| <= |c| && c[..|WebSearchLead|] == WebSearchLead && c[|WebSearchLead|..] == topic
  {
    WebSearchLead + topic
  }

  /** `web_search`: `shop_helper` on the instruction for the topic. */
  method WebSearch(topic: string, adb: AdbRun, remove: Run, start: Run, poll: nat -> string, read: Run)
    returns (issued: seq<DeviceCommand>, result: ToolResult)
    ensures CheckAdbConnection(adb).0 && remove.Ran? ==>
      |issued| >= 2 && issued[1] == StartCommand(ShellQuote(WebSearchCommand(topic)))
      && ShellWord(issued[1].escaped, false) == Some(WebSearchCommand(topic))
    ensures !CheckAdbConnection(adb).0 ==> issued == [] && result == Failure(CheckAdbConnection(adb).1, None)
    ensures CheckAdbConnection(adb).0 && remove.ProcessFailed? ==>
      issued == [RemoveResult] && result == ExecutionFailed(remove.description, remove.stderr)
    ensures CheckAdbConnection(adb).0 && remove.Ran? && start.ProcessFailed? ==>
      issued == [RemoveResult, StartCommand(ShellQuote(WebSearchCommand(topic)))]
      && result == ExecutionFailed(start.description, start.stderr)
    ensures CheckAdbConnection(adb).0 && remove.Ran? && start.Ran? && FirstSeen(poll, 0) == MaxWaitSeconds ==>
      issued == [RemoveResult, StartCommand(ShellQuote(WebSearchCommand(topic)))] + Polls(MaxWaitSeconds)
      && result == Failure(TimedOut, None)
    ensures CheckAdbConnection(adb).0 && remove.Ran? && start.Ran? && FirstSeen(poll, 0) < MaxWaitSeconds ==>
      issued == [RemoveResult, StartCommand(ShellQuote(WebSearchCommand(topic)))] + Polls(FirstSeen(poll, 0) + 1) + [ReadResult]
      && result == (if read.Ran? then Success(read.stdout) else ExecutionFailed(read.description, read.stderr))
  {
    issued, result := ShopHelperRun(WebSearchCommand(topic), adb, remove, start, poll, read);
    ShellQuoteRoundTrip(WebSearchCommand(topic));
  }
}
