/**
 * The bot process: the global configuration it mutates in place, the copy of
 * it last written to config.json, and the one-shot flag that guards command
 * registration.  Each slash-command handler changes `config` exactly as the
 * matching transition of GuildConfig does, and writes the whole map back after
 * every change, so `saved == config` holds between commands.
 */
module Telereader {
  import opened GuildConfig

  class Bot {
    /** config_json: guild id to that guild's settings. */
    var config: Config
    /** The content of config.json as last written. */
    var saved: Config
    /** 0 until the slash commands have been registered, then 1. */
    var synced: int
    /** How many times the command tree has been registered with Discord. */
    ghost var registrations: nat

    ghost predicate Valid()
      reads this
    {
      && saved == config
      && (synced == 0 || synced == 1)
      && registrations == synced
    }

    /**
     * Start-up: `loaded` is what config.json parsed to, or None when reading
     * or parsing it failed, in which case an empty configuration is used and
     * written back.
     */
    constructor (loaded: Option<Config>)
      ensures Valid()
      ensures config == (if loaded.Some? then loaded.value else map[])
      ensures synced == 0 && registrations == 0
    {
      synced := 0;
      registrations := 0;
      if loaded.Some? {
        config := loaded.value;
        saved := loaded.value;
      } else {
        config := map[];
        saved := config;
      }
    }

    /**
     * The sync_commands loop body: register the commands while `synced` is 0
     * and raise the flag; every later run does nothing.  `registered` tells
     * whether the command tree was pushed to Discord in this run.
     */
    method SyncCommands() returns (registered: bool)
      requires Valid()
      modifies this
      ensures Valid()
      ensures registered <==> old(synced) == 0
      ensures synced == 1 && registrations == 1
      ensures config == old(config) && saved == old(saved)
    {
      registered := synced == 0;
      if synced == 0 {
        registrations := registrations + 1;
        synced := 1;
      }
    }

    /**
     * /teleinfo for guild `id`; `probe` is what getMe answers for the stored
     * token.  Reads the configuration and never changes it.
     */
    method Teleinfo(id: GuildId, probe: GetMe) returns (reply: InfoReply)
      ensures reply == InfoNotLinked <==> !IsLinked(config, id)
      ensures IsLinked(config, id) && probe.RequestException? ==> reply == InfoException(probe.detail)
      ensures (IsLinked(config, id) && probe.Response? && probe.status != 200)
                ==> reply == AccountIssue(probe.status)
      ensures (IsLinked(config, id) && probe.Response? && probe.status == 200)
                ==> reply == match probe.body
                             case HasUsername(name) => LinkedTo(name)
                             case Unparsable(error) => InfoException(error)
    {
      if id !in config || TokenKey !in config[id] {
        return InfoNotLinked;
      }
      match probe
      case RequestException(detail) =>
        reply := InfoException(detail);
      case Response(status, body) =>
        if status == 200 {
          match body
          case HasUsername(name) => reply := LinkedTo(name);
          case Unparsable(error) => reply := InfoException(error);
        } else {
          reply := AccountIssue(status);
        }
    }

    /**
     * /telelink for guild `id` with `token`; `probe` is what getMe answers
     * for that token.
     */
    method Telelink(id: GuildId, token: string, probe: GetMe) returns (reply: LinkReply)
      requires Valid()
      modifies this
      ensures Valid()
      ensures Step(config, reply) == Link(old(config), id, token, probe)
      ensures reply != LinkedOk ==> saved == old(saved)
      ensures synced == old(synced) && registrations == old(registrations)
    {
      if id in config && TokenKey in config[id] {
        return AlreadyConnected;
      }
      match probe
      case RequestException(detail) =>
        reply := LinkException(detail);
      case Response(status, _) =>
        if status == 200 {
          if id !in config {
            config := config[id := map[]];
          }
          config := config[id := config[id][TokenKey := token]];
          saved := config;
          reply := LinkedOk;
        } else if status == 404 {
          reply := InvalidToken;
        } else {
          reply := StatusError(status);
        }
    }

    /** /telestop for guild `id`. */
    method Telestop(id: GuildId) returns (reply: StopReply)
      requires Valid()
      modifies this
      ensures Valid()
      ensures Step(config, reply) == Stop(old(config), id)
      ensures reply == NotLinked ==> saved == old(saved)
      ensures synced == old(synced) && registrations == old(registrations)
    {
      if id in config && TokenKey in config[id] {
        config := config[id := config[id] - {TokenKey}];
        if config[id] == map[] {
          config := config - {id};
        }
        saved := config;
        reply := Unlinked;
      } else {
        reply := NotLinked;
      }
    }
  }

  /**
   * A client of the class: a fresh bot that links a guild and then unlinks it
   * ends with the configuration it loaded, written back to config.json.
   */
  method LinkThenStop(loaded: Config, id: GuildId, token: string, probe: GetMe)
    returns (linked: LinkReply, stopped: StopReply, final: Config)
    requires id !in loaded && Accepted(probe)
    ensures linked == LinkedOk && stopped == Unlinked && final == loaded
  {
    var bot := new Bot(Some(loaded));
    linked := bot.Telelink(id, token, probe);
    stopped := bot.Telestop(id);
    LinkThenStopRestores(loaded, id, token, probe);
    final := bot.saved;
  }
}
