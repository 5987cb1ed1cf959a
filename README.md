# telereader: guild link configuration

A model of the command side of telereader, a Discord bot meant to relay
Telegram messages into Discord guilds. Each guild links one Telegram bot
token with the slash command `/telelink` and removes it with `/telestop`.
`/teleinfo` reports whether a guild is linked. The bot keeps all links in one
dictionary, `config_json`. It maps a guild id (a string) to that guild's
settings, and the token is stored under `"telegram_token"`. After every change
the whole dictionary is written back to `config.json`. A flag, `synced`,
makes sure the slash commands are registered with Discord only once.

- `guild_config.dfy` (module `GuildConfig`) holds the value types and the
  commands as pure transitions. `IsLinked` is the linked-check that all three
  commands share. `Link` and `Stop` are the `/telelink` and `/telestop`
  transitions. `Run` applies a sequence of commands in order. The module also
  proves the properties of single commands and of whole command sequences.
- `bot.dfy` (module `Telereader`) holds the class `Bot`. Its fields are
  `config`, `saved` (the content of `config.json` as last written) and
  `synced`. The handlers change `config` in place, the way the Python code
  does. Each handler is proved to compute exactly the transition of
  `GuildConfig`. Each also keeps `saved == config`, and changes `saved` only
  on a successful link or unlink.

The getMe request to the Telegram Bot API is an input value, `GetMe`. It is
either a `Response` with a status code and a parsed body, or a
`RequestException` carrying the exception's text.

## Model

| member | source | states |
|---|---|---|
| `GuildConfig.Link` | main.py:109-146 | Succeeds if and only if the guild is not linked and getMe answered 200. A linked guild gets "already connected". Otherwise 404 gives "invalid token", any other status gives that status as an error, and a request exception gives its text. Every reply except success leaves the map unchanged. On success the guild's entry holds the token and is created if it was absent. Its other keys, and all other guilds, are unchanged. |
| `GuildConfig.Stop` | main.py:156-171 | Unlinks if and only if the guild was linked, and afterwards the guild is never linked. An unlinked guild gets "not linked" and nothing changes. On unlink the token key is removed, and the guild's entry is deleted exactly when the token was its only key. Every other guild is unchanged. |
| `GuildConfig.LinkedCheckShared` | main.py:76-171 | `/telelink` answers "already connected", and `/telestop` unlinks, exactly when the guild has an entry holding a token. `Telereader.Bot.Teleinfo` uses the same `IsLinked` test, so all three commands agree on whether a guild is linked. |
| `GuildConfig.NatToString` | main.py:139 | Renders a non-negative number as Python's `str()` does: at least one character, only decimal digits, no leading zero, and the digits denote the number. |
| `GuildConfig.IntToString` | main.py:139 | Renders any integer as Python's `str()` does: the decimal digits of a non-negative number, or `-` followed by the digits of its magnitude, with no leading zero in either case. |
| `GuildConfig.IntToStringInjective` | main.py:94 | Two integers with the same rendering are equal, so a status code can be read back from the reply. |
| `GuildConfig.LinkTextInjective` | main.py:109-146 | The five `/telelink` reply texts ("already connected", "linked successfully", "invalid token", "There was an error: " plus the status, "There was an exception: " plus its text) never coincide. Equal texts mean equal outcomes, including the same status or exception text. |
| `GuildConfig.StopTextInjective` | main.py:166-170 | The `/telestop` texts "unlinked" and "not linked" differ. |
| `GuildConfig.InfoTextInjective` | main.py:76-97 | The four `/teleinfo` reply texts ("not linked", "Linked to ... **@name**", "Issue ... (status)", "There was an exception: " plus its text) never coincide. Equal texts mean equal outcomes, including the same username, status or exception text. |
| `GuildConfig.LinkThenStopRestores` | main.py:121-161 | Start from a guild that is not linked and whose entry is absent or non-empty. A successful `/telelink` followed by `/telestop` then gives back exactly the original configuration, with the reply "unlinked". |
| `GuildConfig.LinkThenStopDropsEmptyEntry` | main.py:157-161 | If the guild's entry was an empty dictionary (possible only in a loaded config.json), the same round trip deletes the guild. The result is the original map without that guild, so the original is not restored. |
| `GuildConfig.SecondLinkRejected` | main.py:109-124 | After a successful `/telelink`, any further `/telelink` for that guild is refused with "already connected" and changes nothing, whatever its token or validation outcome. |
| `GuildConfig.StopIdempotent` | main.py:156-171 | A second `/telestop` replies "not linked" and leaves the configuration as the first one left it. |
| `GuildConfig.ApplyKeepsNoEmptyEntries` | main.py:121-161 | If no guild entry is empty before a command (link, stop or info), none is empty after it. |
| `GuildConfig.ApplyOtherGuild` | main.py:106-161 | A command for one guild never adds, removes or changes another guild's entry. |
| `GuildConfig.RunKeepsNoEmptyEntries` | main.py:121-161 | If no guild entry is empty at the start, none is empty after any sequence of commands. |
| `GuildConfig.RunIsolatesGuilds` | main.py:106-161 | A sequence of commands that never names a guild leaves that guild's entry, or its absence, as it was. |
| `GuildConfig.ApplyToken` | main.py:109-161 | If a guild is linked after one command, then either it was linked before and keeps its token, or the command was a `/telelink` of that guild. In that case getMe accepted the command's token and that token is the one stored. |
| `GuildConfig.RunStoresOnlyAcceptedTokens` | main.py:118-124 | A token held after a sequence of commands is either the token held before it, or the token of some `/telelink` of that guild in the sequence for which getMe answered 200. |
| `Telereader.Bot.constructor` | main.py:29-38 | Start-up: `synced` is 0. The configuration is the parsed config.json, or empty if reading or parsing failed, and the file holds that configuration. |
| `Telereader.Bot.SyncCommands` | main.py:41-45 | Registers the commands exactly when `synced` was 0, and afterwards `synced` is 1. Over the bot's lifetime there is at most one registration, and the configuration is never touched. |
| `Telereader.Bot.Teleinfo` | main.py:73-97 | Replies "not linked" if and only if the guild is not linked. Otherwise: the username on 200 with a parsable body, the exception text on a request failure or parse failure, and "issue" with the status on any other status. It modifies nothing. |
| `Telereader.Bot.Telelink` | main.py:105-146 | The new `config` and the reply are exactly `GuildConfig.Link` of the old `config`. `saved` equals the new `config`, and it is unchanged unless the link succeeded. `synced` is unchanged. |
| `Telereader.Bot.Telestop` | main.py:153-171 | The new `config` and the reply are exactly `GuildConfig.Stop` of the old `config`. `saved` equals the new `config`, and it is unchanged when the guild was not linked. `synced` is unchanged. |
| `Telereader.LinkThenStop` | main.py:121-161 | On a freshly started bot whose loaded configuration lacks the guild, an accepted `/telelink` followed by `/telestop` succeeds twice. It ends with the loaded configuration in config.json. |

## Left out

- `check_messages` (main.py:48-66) is not modelled. It fetches `getUpdates` for the token that the loop over the configuration assigned last, and then does nothing with the response. The variable is unbound when the configuration is empty. The response is never processed: main.py:61-62 are two comments.
- HTTP requests to the Telegram Bot API are not modelled. Their outcome is the input `GetMe`, and the URL built from the token is not modelled.
- The Discord client, the command tree, sending replies and the `tasks.loop` scheduling are not modelled. Replies are return values, and `Text()` on each reply type gives the message text. `SyncCommands` stands for one run of the loop body, and the registration call is counted in `registrations`.
- The `.env` loading and the `DISCORD_TOKEN` check (main.py:12-21) are not modelled.
- The file I/O of config.json is reduced to the `saved` snapshot. A failing write (an exception raised inside the handler after the map has already changed) is not modelled.
- JSON documents whose values are not dictionaries of strings are outside the `Config` type.
- Console `print` output is not modelled.
- A command issued outside a guild (`interaction.guild` is None) is not modelled. The guild id is given as a string parameter.
- `Telereader.Bot.Teleinfo`: when the 200 response cannot be parsed, the text of the resulting exception (a KeyError or a JSON error) is taken from the input `Unparsable(error)` rather than derived from the body.
