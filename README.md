# sendmail-telegram, modelled in Dafny

sendmail-telegram is a `sendmail` replacement that delivers mail to Telegram
chats through a bot. This project models its delivery engine,
`sendmail-telegram.go`:

- the engine's `Config` and the normalisation done by `New`, where a blank
  `Format` is replaced by the built-in `DefaultFormat`;
- address resolution (`mapAddress`): the chat mapped to a recipient's bare
  address, or the `CatchAll` chat;
- `Sendmail`. It reads the body and builds the string-to-string template
  context from the headers and the body. It renders the template once and
  refuses an empty result. It then sends the text in Markdown once to each
  distinct chat the recipients resolve to, in recipient order. A failed send
  is neither retried nor reported;
- `Updates`, the chat discovery aid. It is modelled as it is written, and an
  intended reading is modelled beside it (see Findings).

Modules, one file each:

- `Wrappers` (wrappers.dfy): Go errors and `(T, error)` results.
- `Collections` (collections.dfy): `DedupBy`, which keeps the first element
  for each key in first-seen order, with its lemmas. It also holds `IsSet`,
  Go's lookup in a `map[K]bool` where a missing key reads `false`.
- `Text` (text.dfy): Go's `strings.TrimSpace` and `strings.Join`.
- `Telegram` (telegram.dfy): the bot client as a `Session` object. The
  session holds the platform's update backlog and a log of every send
  attempt together with its outcome.
- `Discovery` (discovery.dfy): the `Updates` loop as written and as
  intended.
- `SendmailTelegram` (sendmail_telegram.dfy): `Config`, `DefaultFormat`,
  address resolution, the template context, and the `SendmailTg` class.

The parts of the system that are not visible become parameters:

- the `text/template` engine is a `Renderer`, a total function from a
  format and a context to a text or an error;
- draining the body reader is a `BodyStream` value, readable or failing;
- opening and checking the bot session in `New` is a `Result<Session>`
  argument;
- the outcome of every `GetUpdates` and `Send` call is left to the platform
  (a nondeterministic choice).

## Model

| member | source | states |
|---|---|---|
| SendmailTelegram.NormalizedFormat | sendmail-telegram.go:42-44 | the format is `DefaultFormat` when the given one is empty or white space only (`TrimSpace` empty), and unchanged otherwise |
| SendmailTelegram.NormalizedFormatIdempotent | sendmail-telegram.go:26-44 | the kept format is never blank, so normalising it again leaves it unchanged |
| Text.TrimSpace | sendmail-telegram.go:42 | the result is a contiguous part of the input with only white space before and after it, and it starts and ends with a non-space character; so it is the input with its leading and trailing white space removed, and it is empty exactly when every character of the input is white space |
| SendmailTelegram.SendmailTg.New | sendmail-telegram.go:37-58 | a failed session set-up returns its error; otherwise a fresh engine holds the session and the config, with only the format normalised |
| SendmailTelegram.MapAddress | sendmail-telegram.go:139-145 | the chat mapped to the bare address when there is an entry for it, the catch-all chat otherwise; always one of these two, never a failure |
| SendmailTelegram.MapAddressIgnoresName | sendmail-telegram.go:140 | two addresses with the same bare address resolve to the same chat, whatever their display names |
| SendmailTelegram.TemplateContext | sendmail-telegram.go:96-101 | the context's keys are the header names plus `Body`; each header other than `Body` maps to its values joined with ", "; `Body` holds the full body, overriding any header of that name |
| SendmailTelegram.BuildTemplateContents | sendmail-telegram.go:96-101 | filling the context header by header, in any order, and then setting `Body` yields exactly TemplateContext |
| Text.Join | sendmail-telegram.go:99 | joining no values gives the empty string; otherwise the result starts with the first value, and its length is the values' total length plus one separator per adjacent pair |
| Text.JoinSnoc | sendmail-telegram.go:99 | joining one more value appends the separator and that value |
| SendmailTelegram.Compose | sendmail-telegram.go:91-117 | an unreadable body returns its error, and so does a failing render; a render to the empty string gives "refusing to send empty message"; a non-empty render of the template context is returned as the text to send, and every success is such a render |
| SendmailTelegram.DestinationsSpec | sendmail-telegram.go:122-134 | the chats sent to are the chats the recipients resolve to, each exactly once, in order of first occurrence, and there are no more of them than recipients |
| SendmailTelegram.DestinationsSnoc | sendmail-telegram.go:123-133 | one more recipient adds its chat to the destinations only when that chat is not yet among them |
| SendmailTelegram.SharedChatSentOnce | sendmail-telegram.go:122-134 | when every recipient resolves to the same chat, that chat is the one and only destination |
| Collections.DedupBy | sendmail-telegram.go:122-133 | deduplication keeps no more elements than it is given, keeps no key twice, and loses no key |
| Collections.DedupByNoGap | sendmail-telegram.go:122-133 | deduplication skips no key: every key first occurring before a kept element's key belongs to an element kept before it |
| Collections.DedupByFirstSeen | sendmail-telegram.go:122-133 | each kept element is the first with its key, and the kept elements appear in the order their keys first occur |
| SendmailTelegram.SendmailTg.FanOut | sendmail-telegram.go:119-134 | the log grows by exactly one send per destination, in order. Each send carries the same text and parse mode, and only the chat id varies. Failed sends neither stop the loop nor are retried |
| SendmailTelegram.SendmailTg.Sendmail | sendmail-telegram.go:90-137 | when Compose fails, that error is returned and nothing is sent; otherwise nil is returned whatever the send outcomes, after one Markdown send of the rendered text to each destination |
| Telegram.Session.Send | sendmail-telegram.go:127 | every send attempt is logged with its message, whether or not it succeeds |
| Telegram.Session.GetUpdates | sendmail-telegram.go:61 | a successful fetch returns the platform's backlog |
| Discovery.MessageChatsSpec | sendmail-telegram.go:68-75 | the chats considered are exactly those of updates that carry a message with a chat; updates with a nil message or nil chat are skipped |
| Discovery.CollectAsWritten | sendmail-telegram.go:66-85 | the loop as written only appends to the chats it starts with, at most one per update, and every chat it appends has an id already marked in the `notified` map it starts with |
| Discovery.AsWrittenCollectsNothing | sendmail-telegram.go:66-80 | as written, while no id is marked in `notified`, the loop appends nothing and marks nothing, so starting from the empty map it returns no chats |
| Discovery.AsWrittenBound | sendmail-telegram.go:82-84 | as written, a run that starts with at most five chats stops with at most six: the `> 5` test lets a sixth chat in |
| Discovery.AsWrittenAcceptsSixth | sendmail-telegram.go:77-84 | with five chats collected, a message from an already marked chat makes the list hold six |
| SendmailTelegram.SendmailTg.Updates | sendmail-telegram.go:60-88 | the fetch outcome is exposed: a successful fetch holds the backlog. A failed fetch returns its error; a successful one returns success with what the loop as written computes, which is always the empty list |
| Discovery.IntendedChatsSpec | sendmail-telegram.go:60-88 | intended discovery reports at most five chats with distinct ids, each from a message in the backlog. When it reports fewer than five, every chat with a message is among them |
| Discovery.IntendedChatsNoGap | sendmail-telegram.go:60-88 | intended discovery skips no id: every id that first occurs in the backlog before a reported chat's id is itself reported, so a capped report holds the first five distinct ids |
| Discovery.IntendedChatsFirstSeen | sendmail-telegram.go:60-88 | intended discovery reports, for each id, the first chat seen with that id, in first-seen order |
| SendmailTelegram.SendmailTg.DiscoverChats | sendmail-telegram.go:60-88 | the loop with the condition and the cap corrected, with the fetch outcome exposed: a failed fetch returns its error, and a successful one returns success with IntendedChats of the backlog |

## Left out

- cmd/cmd.go is not part of this model. It holds the command line, the
  config file search, the parsing of the message from standard input, the
  address parsing, and the check for an empty recipient list
  (cmd/cmd.go:132-135), so `Sendmail` itself accepts an empty list. Given
  an empty list, the model's `Sendmail` still reads the body and renders the
  template, and returns the error of either step as the Go function does;
  once rendering succeeds it sends nothing and returns success.
- The `text/template` engine. `Parse` and `Execute` are one `Renderer`
  parameter that may fail. What `DefaultFormat` renders to (the bold subject,
  the separator, the To/From block) is not modelled, so no property of a
  concrete rendered text is stated.
- `tgbotapi.NewBotAPI` and `GetMe` are network calls. `New` receives their
  combined outcome as an argument.
- `GetUpdates` and `Send` are network calls. Their success is a
  nondeterministic choice of the session. The message that `Send` returns on
  success is dropped, because `Sendmail` ignores it.
- `ioutil.ReadAll` is I/O. The body is a `BodyStream` value that is either
  readable or failing.
- `log.Println` of a failed send has no observable effect in the model.
- Go's random map iteration order in the header loop becomes an arbitrary
  choice of the next key. The resulting context does not depend on it.
- Go strings are bytes and `TrimSpace` decodes UTF-8. The model works on
  Unicode code points, so invalid UTF-8 is not modelled.
- Pointers (`*Chat`, `*mail.Address`) are modelled as values, so aliasing is
  not modelled.

## Findings

| source | as written | input that shows it | evidently intended | confidence | as-written member | corrected member |
|---|---|---|---|---|---|---|
| sendmail-telegram.go:77-80 | a chat is appended only if `notified[id]` is already true, and `notified` starts empty and is only set inside that branch | any backlog, e.g. one update with a message from chat 1: `Updates` returns an empty list | append a chat and mark it the first time its id is seen (`!notified[id]`) | high, not executed | Discovery.AsWrittenCollectsNothing | Discovery.IntendedChatsSpec |
| sendmail-telegram.go:82 | the loop stops only when `len(chats) > 5` | five chats collected, then a message from a sixth chat that passes the append test: six chats are returned (latent while the :77 test is inverted, since that test never lets a chat in) | at most five chats (`len(chats) >= 5`) | medium, not executed | Discovery.AsWrittenBound | Discovery.IntendedChatsSpec |

`SendmailTg.Updates` keeps the behaviour as written. `SendmailTg.DiscoverChats`
is the corrected loop, proved equal to `Discovery.IntendedChats`.
