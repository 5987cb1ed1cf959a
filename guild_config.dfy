/**
 * The per-guild link configuration of the Telegram relay bot, as values.
 *
 * `config_json` maps a Discord guild id (the guild's numeric id written as a
 * string) to a small dictionary of settings; the only setting the bot writes is
 * the Telegram bot token under the key "telegram_token".  This module gives the
 * state transitions of the slash commands /telelink and /telestop as pure
 * functions over that map, the linked-check shared by all three commands, and
 * the properties of these transitions over single commands and whole command
 * sequences.  The class in bot.dfy performs the same transitions in place.
 */
module GuildConfig {

  datatype Option<T> = None | Some(value: T)

  type GuildId = string
  type Entry = map<string, string>
  type Config = map<GuildId, Entry>

  /** The one key of a guild entry that the commands read and write. */
  const TokenKey: string := "telegram_token"

  /** What the body of a successful getMe response yields once parsed. */
  datatype Body =
    | HasUsername(username: string)  // result.username is present
    | Unparsable(error: string)      // parsing raised; `error` is the exception's text

  /** The outcome of one getMe request to the Telegram Bot API for a token. */
  datatype GetMe =
    | Response(status: int, body: Body)  // an HTTP response arrived with this status code
    | RequestException(detail: string)   // the request failed; `detail` is the exception's text

  // Long reply texts are written as two literals so that the verifier can
  // read their characters.

  /** Replies of /telelink. */
  datatype LinkReply =
    | AlreadyConnected
    | LinkedOk
    | InvalidToken
    | StatusError(status: int)
    | LinkException(detail: string)
  {
    function Text(): (r: string) {
      match this
      case AlreadyConnected => "Telegram already connected. " + "Use /telestop to remove the configuration."
      case LinkedOk => "Telegram linked successfully"
      case InvalidToken => "Invalid token, please provide " + "valid Telegram token."
      case StatusError(status) => "There was an error: " + IntToString(status)
      case LinkException(detail) => "There was an exception: " + detail
    }
  }

  /** Replies of /telestop. */
  datatype StopReply = Unlinked | NotLinked
  {
    function Text(): (r: string) {
      match this
      case Unlinked => "Telegram bot account unlinked"
      case NotLinked => "Telegram bot account not linked"
    }
  }

  /** Replies of /teleinfo. */
  datatype InfoReply =
    | InfoNotLinked
    | LinkedTo(username: string)
    | AccountIssue(status: int)
    | InfoException(detail: string)
  {
    function Text(): (r: string) {
      match this
      case InfoNotLinked => "Telegram bot account not linked"
      case LinkedTo(username) => "Linked to Telegram bot account **@" + username + "**"
      case AccountIssue(status) => "Issue with Telegram " + "bot account happened (" + IntToString(status) + ")"
      case InfoException(detail) => "There was an exception: " + detail
    }
  }

  /** The state after a command together with the reply sent to the guild. */
  datatype Step<R> = Step(config: Config, reply: R)

  predicate IsDigit(ch: char) {
    '0' <= ch <= '9'
  }

  predicate AllDigits(s: string) {
    forall k :: 0 <= k < |s| ==> IsDigit(s[k])
  }

  /** The number a string of decimal digits denotes. */
  function DecimalValue(s: string): nat
    requires AllDigits(s)
  {
    if s == [] then 0 else DecimalValue(s[..|s| - 1]) * 10 + (s[|s| - 1] as int - '0' as int)
  }

  /** Decimal rendering of an integer, as Python's str() writes it. */
  function IntToString(i: int): (r: string)
    ensures i >= 0 ==> |r| > 0 && AllDigits(r) && DecimalValue(r) == i
    ensures i < 0 ==> |r| > 1 && r[0] == '-' && AllDigits(r[1..]) && DecimalValue(r[1..]) == -i
    ensures |r| > 1 ==> r[0] != '0' && (r[0] == '-' ==> r[1] != '0')
  {
    if i < 0 then "-" + NatToString(-i) else NatToString(i)
  }

  /** Decimal digits of `n`, with no leading zero. */
  function NatToString(n: nat): (r: string)
    ensures |r| > 0 && AllDigits(r)
    ensures |r| > 1 ==> r[0] != '0'
    ensures DecimalValue(r) == n
    decreases n
  {
    var last := ('0' as int + n % 10) as char;
    if n < 10 then [last] else NatToString(n / 10) + [last]
  }

  /** A guild is linked when it has an entry and that entry holds a token. */
  predicate IsLinked(c: Config, id: GuildId) {
    id in c && TokenKey in c[id]
  }

  /** No guild entry is an empty dictionary. */
  predicate NoEmptyEntries(c: Config) {
    forall g :: g in c ==> c[g] != map[]
  }

  /** The validation request accepted the token. */
  predicate Accepted(probe: GetMe) {
    probe.Response? && probe.status == 200
  }

  /**
   * /telelink: refuse when the guild is already linked; otherwise store the
   * token only when getMe answered 200, creating the guild's entry if needed.
   */
  function Link(c: Config, id: GuildId, token: string, probe: GetMe): (r: Step<LinkReply>)
    ensures r.reply == LinkedOk <==> !IsLinked(c, id) && Accepted(probe)
    ensures IsLinked(c, id) ==> r.reply == AlreadyConnected
    ensures !IsLinked(c, id) && probe.Response? && probe.status == 404 ==> r.reply == InvalidToken
    ensures (!IsLinked(c, id) && probe.Response? && probe.status != 200 && probe.status != 404)
              ==> r.reply == StatusError(probe.status)
    ensures !IsLinked(c, id) && probe.RequestException? ==> r.reply == LinkException(probe.detail)
    ensures r.reply != LinkedOk ==> r.config == c
    ensures r.reply == LinkedOk ==>
              && IsLinked(r.config, id) && r.config[id][TokenKey] == token
              && r.config.Keys == c.Keys + {id}
              && r.config[id].Keys == (if id in c then c[id].Keys else {}) + {TokenKey}
              && (forall k :: id in c && k in c[id] ==> r.config[id][k] == c[id][k])
              && (forall g :: g in c && g != id ==> r.config[g] == c[g])
  {
    if IsLinked(c, id) then Step(c, AlreadyConnected)
    else
      match probe
      case RequestException(detail) => Step(c, LinkException(detail))
      case Response(status, _) =>
        if status == 200 then
          var entry := if id in c then c[id] else map[];
          Step(c[id := entry[TokenKey := token]], LinkedOk)
        else if status == 404 then Step(c, InvalidToken)
        else Step(c, StatusError(status))
  }

  /**
   * /telestop: on a linked guild drop the token and, when nothing else is left
   * in the guild's entry, the whole entry; otherwise report "not linked".
   */
  function Stop(c: Config, id: GuildId): (r: Step<StopReply>)
    ensures r.reply == Unlinked <==> IsLinked(c, id)
    ensures r.reply == NotLinked ==> r.config == c
    ensures !IsLinked(r.config, id)
    ensures r.reply == Unlinked ==>
              && (id in r.config <==> c[id].Keys != {TokenKey})
              && (id in r.config ==> r.config[id] == c[id] - {TokenKey})
              && r.config.Keys <= c.Keys
              && (forall g :: g in c && g != id ==> g in r.config && r.config[g] == c[g])
  {
    if IsLinked(c, id) then
      var entry := c[id] - {TokenKey};
      assert entry.Keys == c[id].Keys - {TokenKey};
      assert entry == map[] <==> entry.Keys == {};
      assert entry.Keys == {} <==> c[id].Keys == {TokenKey};
      Step(if entry == map[] then c - {id} else c[id := entry], Unlinked)
    else
      Step(c, NotLinked)
  }

  /** One slash command as the bot receives it, with the getMe outcome it meets. */
  datatype Command =
    | LinkCmd(guild: GuildId, token: string, probe: GetMe)
    | StopCmd(guild: GuildId)
    | InfoCmd(guild: GuildId, probe: GetMe)
  {
    /** /telelink with a token that getMe accepted. */
    predicate AcceptedLink(id: GuildId, tok: string) {
      LinkCmd? && guild == id && token == tok && Accepted(probe)
    }
  }

  /** The configuration after one command; /teleinfo only reads. */
  function Apply(c: Config, cmd: Command): (r: Config) {
    match cmd
    case LinkCmd(id, token, probe) => Link(c, id, token, probe).config
    case StopCmd(id) => Stop(c, id).config
    case InfoCmd(_, _) => c
  }

  /** The configuration after the bot has handled the commands in order. */
  function Run(c: Config, cmds: seq<Command>): (r: Config)
    decreases |cmds|
  {
    if cmds == [] then c else Run(Apply(c, cmds[0]), cmds[1..])
  }

  // ---------------------------------------------------------------------
  // Reply texts
  // ---------------------------------------------------------------------

  /** Different integers are rendered differently. */
  lemma IntToStringInjective(a: int, b: int)
    requires IntToString(a) == IntToString(b)
    ensures a == b
  {
  }

  /** The characters at positions 0, 1, 9 and 14, which tell the message kinds apart. */
  function Signature(t: string): (r: string)
    requires |t| >= 15
    ensures |r| == 4
  {
    [t[0], t[1], t[9], t[14]]
  }

  /** Every /telelink message is long enough to carry a signature, and which one it carries. */
  lemma LinkTextSignature(x: LinkReply)
    ensures |x.Text()| >= 15
    ensures Signature(x.Text()) == match x
      case AlreadyConnected => "Tead"
      case LinkedOk => "Teld"
      case InvalidToken => "Ino "
      case StatusError(_) => "Th r"
      case LinkException(_) => "Th x"
  {
    match x
    case AlreadyConnected =>
      var t := "Telegram already connected. " + "Use /telestop to remove the configuration.";
      assert t[0] == 'T' && t[1] == 'e' && t[9] == 'a' && t[14] == 'd';
      assert x.Text() == t && Signature(t) == "Tead";
    case LinkedOk =>
      var t := "Telegram linked successfully";
      assert t[0] == 'T' && t[1] == 'e' && t[9] == 'l' && t[14] == 'd';
      assert x.Text() == t && Signature(t) == "Teld";
    case InvalidToken =>
      var t := "Invalid token, please provide " + "valid Telegram token.";
      assert t[0] == 'I' && t[1] == 'n' && t[9] == 'o' && t[14] == ' ';
      assert x.Text() == t && Signature(t) == "Ino ";
    case StatusError(status) =>
      var rest := IntToString(status);
      var t := "There was an error: " + rest;
      assert t[0] == 'T' && t[1] == 'h' && t[9] == ' ' && t[14] == 'r';
      assert x.Text() == t && Signature(t) == "Th r";
    case LinkException(detail) =>
      var t := "There was an exception: " + detail;
      assert t[0] == 'T' && t[1] == 'h' && t[9] == ' ' && t[14] == 'x';
      assert x.Text() == t && Signature(t) == "Th x";
  }

  /** Each /telelink outcome produces a message of its own. */
  lemma LinkTextInjective(x: LinkReply, y: LinkReply)
    requires x.Text() == y.Text()
    ensures x == y
  {
    var t := x.Text();
    LinkTextSignature(x);
    LinkTextSignature(y);
    if x.LinkException? && y.LinkException? {
      assert x.detail == t[24..] == y.detail;
    } else if x.StatusError? && y.StatusError? {
      assert IntToString(x.status) == t[20..] == IntToString(y.status);
      IntToStringInjective(x.status, y.status);
    }
  }

  /** The two /telestop replies read differently. */
  lemma StopTextInjective(x: StopReply, y: StopReply)
    requires x.Text() == y.Text()
    ensures x == y
  {
  }

  /** Every /teleinfo message is long enough to carry a signature, and which one it carries. */
  lemma InfoTextSignature(x: InfoReply)
    ensures |x.Text()| >= 15
    ensures Signature(x.Text()) == match x
      case InfoNotLinked => "Tebc"
      case LinkedTo(_) => "Li g"
      case AccountIssue(_) => "Ishe"
      case InfoException(_) => "Th x"
  {
    match x
    case LinkedTo(username) =>
      var t := "Linked to Telegram bot account **@" + (username + "**");
      assert t[0] == 'L' && t[1] == 'i' && t[9] == ' ' && t[14] == 'g';
      assert x.Text() == t && Signature(t) == "Li g";
    case AccountIssue(status) =>
      var rest := IntToString(status) + ")";
      var t := "Issue with Telegram " + "bot account happened (" + rest;
      assert t[0] == 'I' && t[1] == 's' && t[9] == 'h' && t[14] == 'e';
      assert x.Text() == t && Signature(t) == "Ishe";
    case InfoException(detail) =>
      var t := "There was an exception: " + detail;
      assert t[0] == 'T' && t[1] == 'h' && t[9] == ' ' && t[14] == 'x';
      assert x.Text() == t && Signature(t) == "Th x";
    case InfoNotLinked =>
      var t := "Telegram bot account not linked";
      assert t[0] == 'T' && t[1] == 'e' && t[9] == 'b' && t[14] == 'c';
      assert x.Text() == t && Signature(t) == "Tebc";
  }

  /** Each /teleinfo outcome produces a message of its own. */
  lemma InfoTextInjective(x: InfoReply, y: InfoReply)
    requires x.Text() == y.Text()
    ensures x == y
  {
    var t := x.Text();
    InfoTextSignature(x);
    InfoTextSignature(y);
    if x.LinkedTo? && y.LinkedTo? {
      assert x.username == t[34..|t| - 2] == y.username;
    } else if x.AccountIssue? && y.AccountIssue? {
      assert IntToString(x.status) == t[42..|t| - 1] == IntToString(y.status);
      IntToStringInjective(x.status, y.status);
    } else if x.InfoException? && y.InfoException? {
      assert x.detail == t[24..] == y.detail;
    }
  }

  /** /teleinfo, /telelink and /telestop decide "linked" by the same test. */
  lemma LinkedCheckShared(c: Config, id: GuildId, token: string, probe: GetMe)
    ensures IsLinked(c, id) <==> Link(c, id, token, probe).reply == AlreadyConnected
    ensures IsLinked(c, id) <==> Stop(c, id).reply == Unlinked
  {
  }

  // ---------------------------------------------------------------------
  // Properties of single commands
  // ---------------------------------------------------------------------

  /** A successful /telelink followed by /telestop restores the configuration. */
  lemma LinkThenStopRestores(c: Config, id: GuildId, token: string, probe: GetMe)
    requires !IsLinked(c, id) && Accepted(probe)
    requires id in c ==> c[id] != map[]
    ensures Stop(Link(c, id, token, probe).config, id) == Step(c, Unlinked)
  {
    var linked := Link(c, id, token, probe).config;
    var r := Stop(linked, id);
    if id in c {
      assert linked[id] - {TokenKey} == c[id];
      assert linked[id].Keys != {TokenKey} by {
        var k :| k in c[id];
        assert k != TokenKey && k in linked[id];
      }
      assert r.config == c;
    } else {
      assert linked[id].Keys == {TokenKey};
      assert r.config == c;
    }
  }

  /** The round trip fails only on an empty entry: /telestop then drops the guild. */
  lemma LinkThenStopDropsEmptyEntry(c: Config, id: GuildId, token: string, probe: GetMe)
    requires id in c && c[id] == map[] && Accepted(probe)
    ensures Stop(Link(c, id, token, probe).config, id).config == c - {id}
    ensures Stop(Link(c, id, token, probe).config, id).config != c
  {
  }

  /** After a successful /telelink, every further /telelink is refused and changes nothing. */
  lemma SecondLinkRejected(c: Config, id: GuildId, t1: string, p1: GetMe, t2: string, p2: GetMe)
    requires Link(c, id, t1, p1).reply == LinkedOk
    ensures Link(Link(c, id, t1, p1).config, id, t2, p2)
              == Step(Link(c, id, t1, p1).config, AlreadyConnected)
  {
  }

  /** /telestop twice: the second one reports "not linked" and changes nothing. */
  lemma StopIdempotent(c: Config, id: GuildId)
    ensures Stop(Stop(c, id).config, id) == Step(Stop(c, id).config, NotLinked)
  {
  }

  /** Neither command introduces an empty guild entry. */
  lemma ApplyKeepsNoEmptyEntries(c: Config, cmd: Command)
    requires NoEmptyEntries(c)
    ensures NoEmptyEntries(Apply(c, cmd))
  {
  }

  /** A command names guild `id` only through its `guild` field. */
  lemma ApplyOtherGuild(c: Config, cmd: Command, id: GuildId)
    requires cmd.guild != id
    ensures id in Apply(c, cmd) <==> id in c
    ensures id in c ==> Apply(c, cmd)[id] == c[id]
  {
  }

  // ---------------------------------------------------------------------
  // Properties of command sequences
  // ---------------------------------------------------------------------

  /** Every configuration reachable from one without empty entries has none. */
  lemma {:induction false} RunKeepsNoEmptyEntries(c: Config, cmds: seq<Command>)
    requires NoEmptyEntries(c)
    ensures NoEmptyEntries(Run(c, cmds))
    decreases |cmds|
  {
    if cmds != [] {
      ApplyKeepsNoEmptyEntries(c, cmds[0]);
      RunKeepsNoEmptyEntries(Apply(c, cmds[0]), cmds[1..]);
    }
  }

  /** Commands of other guilds never touch a guild's entry. */
  lemma {:induction false} RunIsolatesGuilds(c: Config, cmds: seq<Command>, id: GuildId)
    requires forall i :: 0 <= i < |cmds| ==> cmds[i].guild != id
    ensures id in Run(c, cmds) <==> id in c
    ensures id in c ==> Run(c, cmds)[id] == c[id]
    decreases |cmds|
  {
    if cmds != [] {
      ApplyOtherGuild(c, cmds[0], id);
      RunIsolatesGuilds(Apply(c, cmds[0]), cmds[1..], id);
    }
  }

  /**
   * How one command affects a guild's token: a linked guild that stays
   * linked keeps its token, and a guild becomes linked only through an
   * accepted /telelink of that guild carrying the stored token.
   */
  lemma ApplyToken(c: Config, cmd: Command, id: GuildId)
    requires IsLinked(Apply(c, cmd), id)
    ensures IsLinked(c, id) ==> Apply(c, cmd)[id][TokenKey] == c[id][TokenKey]
    ensures !IsLinked(c, id) ==> cmd.AcceptedLink(id, Apply(c, cmd)[id][TokenKey])
  {
  }

  /**
   * A token held after a command sequence is either the one held before it,
   * or one that getMe accepted in a /telelink of that guild within it.
   */
  lemma {:induction false} RunStoresOnlyAcceptedTokens(c: Config, cmds: seq<Command>, id: GuildId)
    requires IsLinked(Run(c, cmds), id)
    ensures || (IsLinked(c, id) && Run(c, cmds)[id][TokenKey] == c[id][TokenKey])
            || exists i :: 0 <= i < |cmds| && cmds[i].AcceptedLink(id, Run(c, cmds)[id][TokenKey])
    decreases |cmds|
  {
    if cmds != [] {
      var tok := Run(c, cmds)[id][TokenKey];
      var next := Apply(c, cmds[0]);
      assert Run(c, cmds) == Run(next, cmds[1..]);
      RunStoresOnlyAcceptedTokens(next, cmds[1..], id);
      if exists i :: 0 <= i < |cmds[1..]| && cmds[1..][i].AcceptedLink(id, tok) {
        var i :| 0 <= i < |cmds[1..]| && cmds[1..][i].AcceptedLink(id, tok);
        assert cmds[i + 1].AcceptedLink(id, tok);
      } else {
        ApplyToken(c, cmds[0], id);
        if !IsLinked(c, id) {
          assert cmds[0].AcceptedLink(id, tok);
        }
      }
    }
  }
}
