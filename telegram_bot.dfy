/**
 * The Telegram listener's own logic: the log filter that hides bot tokens
 * in log messages and their string arguments, and the message handler that
 * answers only the configured chat and picks an action from the stripped,
 * upper-cased text. Sending replies and running the pipeline are outside
 * the model; a pipeline run enters as its result.
 */
module TelegramBot {
  import opened Wrappers
  import opened Text
  import opened Timestamps

  /** The regex class `[A-Za-z0-9_-]` of a token. */
  predicate IsTokenChar(c: char) {
    IsLetter(c) || IsDigit(c) || c == '_' || c == '-'
  }

  const BotReplacement: string := "bot***TOKEN_HIDDEN***"
  const BareReplacement: string := "***TOKEN_HIDDEN***"

  /**
   * Where a match of `bot\d+:[A-Za-z0-9_-]+` starting at `i` ends. Both runs
   * are greedy; backing off digits never helps, since a digit is not `:`.
   */
  function BotMatch(s: string, i: nat): (r: Option<nat>)
    ensures r.Some? ==> i < r.value <= |s| && OccursAt(s, "bot", i)
    ensures r.Some? ==> exists k :: i <= k < r.value && s[k] == ':'
  {
    if OccursAt(s, "bot", i) then
      var j := RunEnd(s, i + 3, IsDigit);
      if i + 3 < j < |s| && s[j] == ':' then
        var k := RunEnd(s, j + 1, IsTokenChar);
        if k > j + 1 then Some(k) else None
      else None
    else None
  }

  /** Where a match of `\d{10}:[A-Za-z0-9_-]{35}` starting at `i` ends. */
  function BareMatch(s: string, i: nat): (r: Option<nat>)
    ensures r.Some? ==> r.value == i + 46 <= |s| && s[i + 10] == ':'
    ensures r.Some? ==> forall k :: i <= k < i + 10 ==> IsDigit(s[k])
  {
    if i + 46 <= |s| && (forall k :: i <= k < i + 10 ==> IsDigit(s[k])) && s[i + 10] == ':'
       && (forall k :: i + 11 <= k < i + 46 ==> IsTokenChar(s[k]))
    then Some(i + 46)
    else None
  }

  /**
   * `re.sub` from position `i`: at each position the leftmost match is
   * replaced and scanning resumes after it; elsewhere the character is kept.
   * A matcher answer that does not move forward is treated as no match.
   */
  function SubFrom(s: string, i: nat, m: (string, nat) -> Option<nat>, rep: string): string
    requires i <= |s|
    decreases |s| - i
  {
    if i == |s| then ""
    else
      match m(s, i)
      case Some(e) =>
        if i < e <= |s| then rep + SubFrom(s, e, m, rep) else [s[i]] + SubFrom(s, i + 1, m, rep)
      case None => [s[i]] + SubFrom(s, i + 1, m, rep)
  }

  /** The two substitutions of the filter, in order. */
  function Redact(s: string): string {
    var once := SubFrom(s, 0, BotMatch, BotReplacement);
    SubFrom(once, 0, BareMatch, BareReplacement)
  }

  /** Where the pattern matches nowhere, the text is copied unchanged. */
  lemma {:induction false} NoMatchUnchanged(s: string, i: nat, m: (string, nat) -> Option<nat>, rep: string)
    requires i <= |s|
    requires forall j :: i <= j < |s| ==> m(s, j).None?
    ensures SubFrom(s, i, m, rep) == s[i..]
    decreases |s| - i
  {
    if i < |s| {
      NoMatchUnchanged(s, i + 1, m, rep);
      assert s[i..] == [s[i]] + s[i + 1..];
    }
  }

  /** Both patterns need a colon: a message without one is logged as it is. */
  lemma NoColonUnchanged(s: string)
    requires ':' !in s
    ensures Redact(s) == s
  {
    assert forall j :: 0 <= j < |s| ==> BotMatch(s, j).None?;
    NoMatchUnchanged(s, 0, BotMatch, BotReplacement);
    assert s[0..] == s;
    assert forall j :: 0 <= j < |s| ==> BareMatch(s, j).None?;
    NoMatchUnchanged(s, 0, BareMatch, BareReplacement);
  }

  lemma ReplacementsHaveNoColon()
    ensures ':' !in BotReplacement && ':' !in BareReplacement
  {
  }

  /** A whole `bot<digits>:<token>` string is logged as the bot replacement alone. */
  lemma BotTokenHidden(digits: string, token: string)
    requires digits != [] && forall k :: 0 <= k < |digits| ==> IsDigit(digits[k])
    requires token != [] && forall k :: 0 <= k < |token| ==> IsTokenChar(token[k])
    ensures Redact("bot" + digits + ":" + token) == BotReplacement
  {
    BotWholeMatch(digits, token);
    BotReplacementKept();
  }

  /** The first substitution replaces the whole string at once. */
  lemma BotWholeMatch(digits: string, token: string)
    requires digits != [] && forall k :: 0 <= k < |digits| ==> IsDigit(digits[k])
    requires token != [] && forall k :: 0 <= k < |token| ==> IsTokenChar(token[k])
    ensures SubFrom("bot" + digits + ":" + token, 0, BotMatch, BotReplacement) == BotReplacement
  {
    BotMatchWhole(digits, token);
    WholeMatch("bot" + digits + ":" + token, BotMatch, BotReplacement);
  }

  /** A match that covers the whole string replaces all of it. */
  lemma WholeMatch(s: string, m: (string, nat) -> Option<nat>, rep: string)
    requires s != [] && m(s, 0) == Some(|s|)
    ensures SubFrom(s, 0, m, rep) == rep
  {
    assert SubFrom(s, |s|, m, rep) == "";
    assert rep + "" == rep;
  }

  lemma BotMatchWhole(digits: string, token: string)
    requires digits != [] && forall k :: 0 <= k < |digits| ==> IsDigit(digits[k])
    requires token != [] && forall k :: 0 <= k < |token| ==> IsTokenChar(token[k])
    ensures BotMatch("bot" + digits + ":" + token, 0) == Some(|digits| + |token| + 4)
  {
    var s := "bot" + digits + ":" + token;
    var j := 3 + |digits|;
    assert s[j] == ':';
    assert forall k :: 3 <= k < j ==> IsDigit(s[k]);
    RunEndAt(s, 3, j, IsDigit);
    assert forall k :: j + 1 <= k < |s| ==> IsTokenChar(s[k]);
    RunEndAt(s, j + 1, |s|, IsTokenChar);
    assert s[0..3] == "bot";
  }

  /** The run of `p` from `i` ends at `j` when everything in between satisfies `p` and `s[j]` does not. */
  lemma {:induction false} RunEndAt(s: string, i: nat, j: nat, p: char -> bool)
    requires i <= j <= |s|
    requires forall k :: i <= k < j ==> p(s[k])
    requires j == |s| || !p(s[j])
    ensures RunEnd(s, i, p) == j
    decreases j - i
  {
    if i < j {
      RunEndAt(s, i + 1, j, p);
    }
  }

  /** The second substitution finds no digits in the bot replacement. */
  lemma BotReplacementKept()
    ensures SubFrom(BotReplacement, 0, BareMatch, BareReplacement) == BotReplacement
  {
    var r := BotReplacement;
    assert forall j :: 0 <= j < |r| ==> !IsDigit(r[j]);
    assert forall j :: 0 <= j < |r| ==> BareMatch(r, j).None?;
    NoMatchUnchanged(r, 0, BareMatch, BareReplacement);
    assert r[0..] == r;
  }

  /** A whole bare token, ten digits, a colon and 35 token characters, is logged as the plain replacement. */
  lemma BareTokenHidden(digits: string, token: string)
    requires |digits| == 10 && forall k :: 0 <= k < |digits| ==> IsDigit(digits[k])
    requires |token| == 35 && forall k :: 0 <= k < |token| ==> IsTokenChar(token[k])
    ensures Redact(digits + ":" + token) == BareReplacement
  {
    BareNoBotMatch(digits, token);
    BareWholeMatch(digits, token);
  }

  /** Without `bot`, the first substitution leaves a bare token alone. */
  lemma BareNoBotMatch(digits: string, token: string)
    requires |digits| == 10 && forall k :: 0 <= k < |digits| ==> IsDigit(digits[k])
    requires |token| == 35 && forall k :: 0 <= k < |token| ==> IsTokenChar(token[k])
    ensures SubFrom(digits + ":" + token, 0, BotMatch, BotReplacement) == digits + ":" + token
  {
    var s := digits + ":" + token;
    forall j | 0 <= j < |s| ensures BotMatch(s, j).None? {
      if j < 10 {
        assert IsDigit(s[j]);
      } else if j == 10 {
        assert s[j] == ':';
      } else {
        assert forall k :: j <= k < |s| ==> IsTokenChar(s[k]);
      }
    }
    NoMatchUnchanged(s, 0, BotMatch, BotReplacement);
    assert s[0..] == s;
  }

  lemma BareWholeMatch(digits: string, token: string)
    requires |digits| == 10 && forall k :: 0 <= k < |digits| ==> IsDigit(digits[k])
    requires |token| == 35 && forall k :: 0 <= k < |token| ==> IsTokenChar(token[k])
    ensures SubFrom(digits + ":" + token, 0, BareMatch, BareReplacement) == BareReplacement
  {
    var s := digits + ":" + token;
    assert forall k :: 0 <= k < 10 ==> IsDigit(s[k]);
    assert forall k :: 11 <= k < 46 ==> IsTokenChar(s[k]);
    assert BareMatch(s, 0) == Some(46);
    assert SubFrom(s, 0, BareMatch, BareReplacement) == BareReplacement + SubFrom(s, 46, BareMatch, BareReplacement);
  }

  /** A log message or argument: a string, or any other value, which the filter leaves alone. */
  datatype LogValue = Str(s: string) | NonStr(id: int)

  function RedactValue(v: LogValue): LogValue {
    match v
    case Str(s) => Str(Redact(s))
    case NonStr(_) => v
  }

  /** `tuple(new_args)`: one entry per argument, in order, strings redacted and the rest as they were. */
  function RedactArgs(args: seq<LogValue>): (r: seq<LogValue>)
    ensures |r| == |args|
    ensures forall i :: 0 <= i < |args| && args[i].NonStr? ==> r[i] == args[i]
    ensures forall i :: 0 <= i < |args| && args[i].Str? ==> r[i] == Str(Redact(args[i].s))
  {
    seq(|args|, i requires 0 <= i < |args| => RedactValue(args[i]))
  }

  /** A string argument without a colon passes through, so redaction changes only token-bearing arguments. */
  lemma ColonFreeArgsKept(args: seq<LogValue>)
    requires forall i :: 0 <= i < |args| && args[i].Str? ==> ':' !in args[i].s
    ensures RedactArgs(args) == args
  {
    forall i | 0 <= i < |args| ensures RedactArgs(args)[i] == args[i] {
      if args[i].Str? {
        NoColonUnchanged(args[i].s);
      }
    }
  }

  /** A log record as the filter sees it. */
  class LogRecord {
    var msg: LogValue
    var args: seq<LogValue>

    constructor (msg: LogValue, args: seq<LogValue>)
      ensures this.msg == msg && this.args == args
    {
      this.msg := msg;
      this.args := args;
    }

    /**
     * `TokenFilter.filter`: rewrites a string message and, only then, the
     * string arguments; it never suppresses a record.
     */
    method Filter() returns (keep: bool)
      modifies this
      ensures keep
      ensures msg == RedactValue(old(msg))
      ensures args == if old(msg).Str? then RedactArgs(old(args)) else old(args)
    {
      if msg.Str? {
        msg := Str(Redact(msg.s));
        if args != [] {
          var input := args;
          var newArgs: seq<LogValue> := [];
          for i := 0 to |input|
            invariant |newArgs| == i
            invariant forall k :: 0 <= k < i ==> newArgs[k] == RedactValue(input[k])
          {
            var arg := input[i];
            if arg.Str? {
              arg := Str(Redact(arg.s));
            }
            newArgs := newArgs + [arg];
          }
          args := newArgs;
        }
      }
      return true;
    }
  }

  /** What a text message makes the bot do. */
  datatype Command = RunPipeline | SendStatus | SendHelp | Ignore

  /** `handle_message`'s decision: only the configured chat, then the command word. */
  function Dispatch(chatId: int, configured: string, text: string): (r: Command)
    ensures IntString(chatId) != configured ==> r == Ignore
    ensures r == RunPipeline <==> IntString(chatId) == configured && Upper(Strip(text)) == "TEST"
    ensures r == SendStatus <==> IntString(chatId) == configured && Upper(Strip(text)) == "STATUS"
    ensures r == SendHelp <==> IntString(chatId) == configured && Upper(Strip(text)) == "HELP"
  {
    if IntString(chatId) != configured then Ignore
    else
      var command := Upper(Strip(text));
      if command == "TEST" then RunPipeline
      else if command == "STATUS" then SendStatus
      else if command == "HELP" then SendHelp
      else Ignore
  }

  lemma TrimStartPadded()
    ensures TrimStart(" test\n") == "test\n"
  {
    var t := "test\n";
    assert !IsSpace(t[0]);
    assert TrimStart(t) == t;
    var padded := " " + t;
    assert IsSpace(padded[0]) && padded[1..] == t;
    assert TrimStart(padded) == TrimStart(t);
    assert padded == " test\n";
  }

  lemma TrimEndNewline()
    ensures TrimEnd("test\n") == "test"
  {
    var t := "test\n";
    assert IsSpace(t[|t| - 1]) && t[..|t| - 1] == "test";
    assert TrimEnd(t) == TrimEnd("test");
    assert !IsSpace("test"[3]);
  }

  lemma StripPaddedTest()
    ensures Strip(" test\n") == "test"
  {
    TrimStartPadded();
    TrimEndNewline();
  }

  /** The command word is matched after stripping and upper-casing. */
  lemma CommandIgnoresCaseAndPadding(chatId: int)
    ensures Dispatch(chatId, IntString(chatId), " test\n") == RunPipeline
  {
    StripPaddedTest();
    UpperTest();
  }

  lemma UpperTest()
    ensures Upper("test") == "TEST"
  {
  }

  /**
   * The chat id is compared as the decimal text of an integer, so a
   * configured id with a leading zero authorises no chat at all.
   */
  lemma LeadingZeroIdMatchesNoChat(chatId: int, configured: string, text: string)
    requires |configured| >= 2 && configured[0] == '0'
    ensures Dispatch(chatId, configured, text) == Ignore
  {
    if chatId >= 0 {
      var d := Decimal(chatId);
      if d[0] == '0' {
        assert chatId == 0;
        assert d == "0";
      }
    }
  }

  /** How a pipeline run ended: normal completion with its exit code and output, the 300-second timeout, or another error. */
  datatype RunResult = Completed(returnCode: int, output: string) | TimedOut | Failed(error: string)

  /** `run_pipeline`'s `(success, stdout, stderr)`: normal completion reports an empty stderr. */
  function PipelineOutcome(r: RunResult): (o: (bool, string, string))
    ensures o.0 <==> r.Completed? && r.returnCode == 0
    ensures r.Completed? ==> o.2 == ""
  {
    match r
    case Completed(code, output) => (code == 0, output, "")
    case TimedOut => (false, "", "Pipeline timed out after 5 minutes")
    case Failed(e) => (false, "", e)
  }

  const MaxErrorChars: nat := 500

  /** `stderr[:500] if stderr else "Unknown error"`. */
  function ErrorMessage(stderr: string): (r: string)
    ensures stderr == "" ==> r == "Unknown error"
    ensures stderr != "" ==> r != "" && |r| <= MaxErrorChars && r <= stderr
    ensures stderr != "" && |stderr| <= MaxErrorChars ==> r == stderr
  {
    if stderr != "" then Take(stderr, MaxErrorChars) else "Unknown error"
  }

  const OkReply: string := "[OK] Pipeline completed!"
  const FailurePrefix: string := "[ERROR] Pipeline failed:\n"

  function PipelineReply(r: RunResult): string {
    var o := PipelineOutcome(r);
    if o.0 then OkReply else FailurePrefix + ErrorMessage(o.2)
  }

  /** The success reply is sent exactly when the pipeline exited with code 0. */
  lemma SuccessReplyIffZeroExit(r: RunResult)
    ensures PipelineReply(r) == OkReply <==> r.Completed? && r.returnCode == 0
  {
    if !(r.Completed? && r.returnCode == 0) {
      assert PipelineReply(r)[1] == 'E';
    }
  }

  /**
   * Normal completion always reports an empty stderr (the output is merged
   * into stdout), so a non-zero exit is reported as an unknown error.
   */
  lemma NonZeroExitReportsUnknownError(code: int, output: string)
    requires code != 0
    ensures PipelineReply(Completed(code, output)) == FailurePrefix + "Unknown error"
  {
  }

  const RunningReply: string := "Running Canvas pipeline..."
  const StartText: string := "Canvas Automation Bot\n\nCommands:\n• TEST - Run the Canvas pipeline\n• /status - Check bot status\n• /help - Show this message"
  const StatusText: string := "[OK] Bot Status: Online\n\nAvailable Commands:\n• TEST - Run Canvas pipeline\n• /status - This message\n• /help - Show help\n\nAll systems operational."

  /** The replies `handle_message` sends, given how the pipeline run would end. */
  function Replies(chatId: int, configured: string, text: string, run: RunResult): (r: seq<string>)
    ensures r == [] <==> Dispatch(chatId, configured, text) == Ignore
    ensures IntString(chatId) != configured ==> r == []
    ensures |r| == 2 <==> Dispatch(chatId, configured, text) == RunPipeline
    ensures |r| == 2 ==> r[0] == RunningReply && r[1] == PipelineReply(run)
  {
    match Dispatch(chatId, configured, text)
    case RunPipeline => [RunningReply, PipelineReply(run)]
    case SendStatus => [StatusText]
    case SendHelp => [StartText]
    case Ignore => []
  }
}
