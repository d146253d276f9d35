/** The chat commands the bot recognises: the first space-separated word
    of the trimmed message decides the command. */
module Commands {
  import opened Common
  import opened Strings

  /** Unicode `White_Space`, the characters Rust's `str::trim` removes. */
  predicate IsWhitespace(c: char)
  {
    ('\t' <= c <= '\r') || c == ' ' || c == '\U{0085}' || c == '\U{00A0}' || c == '\U{1680}' ||
    ('\U{2000}' <= c <= '\U{200A}') || c == '\U{2028}' || c == '\U{2029}' || c == '\U{202F}' ||
    c == '\U{205F}' || c == '\U{3000}'
  }

  /** `str::trim_start`: what is left after the leading white space. */
  function TrimStart(s: string): (r: string)
    ensures EndsWith(s, r)
    ensures forall i :: 0 <= i < |s| - |r| ==> IsWhitespace(s[i])
    ensures r != [] ==> !IsWhitespace(r[0])
  {
    if s != [] && IsWhitespace(s[0]) then TrimStart(s[1..]) else s
  }

  /** `str::trim_end`: what is left before the trailing white space. */
  function TrimEnd(s: string): (r: string)
    ensures |r| <= |s| && s[..|r|] == r
    ensures forall i :: |r| <= i < |s| ==> IsWhitespace(s[i])
    ensures r != [] ==> !IsWhitespace(r[|r| - 1])
  {
    if s != [] && IsWhitespace(s[|s| - 1]) then TrimEnd(s[..|s| - 1]) else s
  }

  /** `str::trim`. */
  function Trim(s: string): string
  {
    TrimEnd(TrimStart(s))
  }

  /** Trimming leaves no white space at either end, so trimming again
      changes nothing. */
  lemma TrimIdempotent(s: string)
    ensures Trim(Trim(s)) == Trim(s)
  {
    var t := Trim(s);
    var u := TrimStart(s);
    assert t == [] || !IsWhitespace(t[0]) by {
      if t != [] {
        assert t[0] == u[0];
      }
    }
    assert TrimStart(t) == t;
    assert TrimEnd(t) == t;
  }

  /** `split(" ").next().unwrap()`: the characters up to the first space,
      or the whole string when there is none. */
  function FirstToken(s: string): (t: string)
    ensures |t| <= |s| && s[..|t|] == t
    ensures ' ' !in t
    ensures |t| < |s| ==> s[|t|] == ' '
  {
    if s == [] || s[0] == ' ' then [] else [s[0]] + FirstToken(s[1..])
  }

  /** The known commands, in the order `get_prefix` uses them. */
  const HelpCommand: string := "!help"
  const RankingCommand: string := "!ranking"
  const CommandNames: seq<string> := [HelpCommand, RankingCommand]

  /** `Command`: help, or the private board's local-score standings
      (member name, score as text) with the board's scrape time. */
  datatype Command =
    | Help
    | GetPrivateStandingByLocalScore(data: seq<(string, string)>, timestamp: int)

  /** `Command::is_command`. */
  predicate IsCommand(input: string)
  {
    FirstToken(Trim(input)) in CommandNames
  }

  /** `Command::build_from`, for a message that is a command (the source
      treats any other input as unreachable). `standings` is the private
      board's `standings_by_local_score` and `timestamp` its scrape time. */
  function BuildFrom(input: string, standings: seq<(string, nat)>, timestamp: int): (c: Command)
    requires IsCommand(input)
    ensures FirstToken(Trim(input)) == HelpCommand <==> c == Help
    ensures c.GetPrivateStandingByLocalScore? ==>
              |c.data| == |standings| && c.timestamp == timestamp &&
              forall i :: 0 <= i < |standings| ==> c.data[i] == (standings[i].0, NatToString(standings[i].1))
  {
    var start := FirstToken(Trim(input));
    if start == HelpCommand then Help
    else
      var data := seq(|standings|, i requires 0 <= i < |standings| => (standings[i].0, NatToString(standings[i].1)));
      GetPrivateStandingByLocalScore(data, timestamp)
  }

  /** `Command::get_prefix`. */
  function GetPrefix(c: Command): (p: string)
    ensures p in CommandNames
  {
    match c
    case Help => HelpCommand
    case GetPrivateStandingByLocalScore(_, _) => RankingCommand
  }

  /** The command built from a message answers to the message's own first
      word. */
  lemma GetPrefixBuildFrom(input: string, standings: seq<(string, nat)>, timestamp: int)
    requires IsCommand(input)
    ensures GetPrefix(BuildFrom(input, standings, timestamp)) == FirstToken(Trim(input))
  {
    var start := FirstToken(Trim(input));
    assert start == HelpCommand || start == RankingCommand;
  }

  /** The ranking payload keeps the standings' order and reading each score
      back gives the standings. */
  lemma RankingPayloadRoundTrip(input: string, standings: seq<(string, nat)>, timestamp: int, i: nat, max: nat)
    requires IsCommand(input) && FirstToken(Trim(input)) == RankingCommand
    requires i < |standings| && standings[i].1 <= max
    ensures BuildFrom(input, standings, timestamp).GetPrivateStandingByLocalScore?
    ensures var c := BuildFrom(input, standings, timestamp);
            c.data[i].0 == standings[i].0 && ParseUnsigned(c.data[i].1, max) == Some(standings[i].1)
  {
    ParseUnsignedNatToString(standings[i].1, max);
  }

  /** A string with no white space at its ends is its own trim. */
  lemma TrimUnchanged(s: string)
    requires s != [] ==> !IsWhitespace(s[0]) && !IsWhitespace(s[|s| - 1])
    ensures Trim(s) == s
  {
    assert TrimStart(s) == s;
  }

  /** The first word ends at the first space. */
  lemma FirstTokenStops(s: string, k: nat)
    requires k <= |s| && ' ' !in s[..k] && (k < |s| ==> s[k] == ' ')
    ensures FirstToken(s) == s[..k]
  {
  }

  /** Leading white space does not hide a command. */
  lemma LeadingSpaceCommand(pad: string, cmd: string)
    requires forall i :: 0 <= i < |pad| ==> IsWhitespace(pad[i])
    requires cmd in CommandNames
    ensures IsCommand(pad + cmd)
    ensures FirstToken(Trim(pad + cmd)) == cmd
  {
    TrimStartPadding(pad, cmd);
    assert cmd[0] == '!' && !IsWhitespace(cmd[|cmd| - 1]);
    TrimUnchanged(cmd);
    assert ' ' !in cmd;
    FirstTokenStops(cmd, |cmd|);
  }

  lemma {:induction false} TrimStartPadding(pad: string, t: string)
    requires forall i :: 0 <= i < |pad| ==> IsWhitespace(pad[i])
    requires t != [] && !IsWhitespace(t[0])
    ensures TrimStart(pad + t) == t
    decreases |pad|
  {
    if pad == [] {
      assert pad + t == t;
    } else {
      assert (pad + t)[1..] == pad[1..] + t;
      TrimStartPadding(pad[1..], t);
    }
  }

  /** Whatever follows a command and a space is its arguments: the
      message is still that command. */
  lemma CommandWithArguments(cmd: string, rest: string)
    requires cmd in CommandNames
    ensures IsCommand(cmd + " " + rest)
    ensures FirstToken(Trim(cmd + " " + rest)) == cmd
  {
    var s := cmd + " " + rest;
    assert s[0] == cmd[0] == '!';
    assert TrimStart(s) == s;
    var r := TrimEnd(s);
    var k := |cmd|;
    assert s[k - 1] == cmd[k - 1] && !IsWhitespace(s[k - 1]);
    assert |r| >= k;
    assert r[..k] == cmd;
    assert ' ' !in cmd;
    if |r| > k {
      assert r[k] == s[k] == ' ';
    }
    FirstTokenStops(r, k);
  }

  /** A longer word starting with a command is not that command. */
  lemma LongerWordNotCommand()
    ensures !IsCommand("!rankings")
  {
    TrimUnchanged("!rankings");
    FirstTokenStops("!rankings", 9);
  }
}
