/**
 * The delivery engine of sendmail-telegram: a mail message is rendered once
 * through a template, every recipient address is resolved to a Telegram
 * chat, and the rendered text is sent once to each distinct chat.
 */
module SendmailTelegram {
  import opened Wrappers
  import opened Collections
  import opened Text
  import opened Telegram
  import opened Discovery

  /** The engine's settings: bot token, message template, address-to-chat mapping and fallback chat. */
  datatype Config = Config(token: string, format: string, addrMapping: map<string, ChatId>, catchAll: ChatId)

  /**
   * The built-in template (Go text/template syntax): the subject in bold when
   * there is one, the body, a separator line and a code block naming the
   * To and From headers.
   */
  const DefaultFormat: string :=
    "{{ if index . \"Subject\" -}}\n*{{.Subject}}*\n\n{{ end -}}\n{{ .Body }}\n---\n" + "```" +
    "\nTo: {{.To}}\nFrom: {{.From}}" + "```"

  /** The format `New` keeps: the built-in template replaces a blank one. */
  function NormalizedFormat(format: string): (f: string)
    ensures IsBlank(format) ==> f == DefaultFormat
    ensures !IsBlank(format) ==> f == format
  {
    if TrimSpace(format) == "" then DefaultFormat else format
  }

  /** The normalised format is never blank, so normalising twice changes nothing more. */
  lemma NormalizedFormatIdempotent(format: string)
    ensures !IsBlank(NormalizedFormat(format))
    ensures NormalizedFormat(NormalizedFormat(format)) == NormalizedFormat(format)
  {
    var f := NormalizedFormat(format);
    if IsBlank(format) {
      DefaultFormatNotBlank();
    }
    assert !IsBlank(f);
  }

  lemma DefaultFormatNotBlank()
    ensures !IsBlank(DefaultFormat)
  {
    assert DefaultFormat[|DefaultFormat| - 1] == '`';
  }

  /** A mail address: display name and bare address. */
  datatype Address = Address(name: string, address: string)

  /** The message body as a reader: draining it yields the content or an error. */
  datatype BodyStream = Readable(content: string) | Unreadable(error: Error)

  /** A parsed mail message: every header with its values, and the body. */
  datatype MailMessage = MailMessage(header: map<string, seq<string>>, body: BodyStream)

  /**
   * The template engine: parses a format and executes it on a string-keyed
   * context, failing when either step fails.
   */
  type Renderer = (string, map<string, string>) -> Result<string>

  /** The error returned when the template renders to nothing. */
  const EmptyMessage: Error := Error("refusing to send empty message")

  /** The chat an address is delivered to: its mapping entry, or the catch-all chat. */
  function MapAddress(config: Config, address: Address): (chatId: ChatId)
    ensures address.address in config.addrMapping ==> chatId == config.addrMapping[address.address]
    ensures address.address !in config.addrMapping ==> chatId == config.catchAll
    ensures chatId in config.addrMapping.Values || chatId == config.catchAll
  {
    if address.address in config.addrMapping then config.addrMapping[address.address] else config.catchAll
  }

  /** Only the bare address is looked up: the display name never changes the chat. */
  lemma MapAddressIgnoresName(config: Config, a: Address, b: Address)
    requires a.address == b.address
    ensures MapAddress(config, a) == MapAddress(config, b)
  {
  }

  /** MapAddress as a function value, the key by which recipients are deduplicated. */
  function Resolver(config: Config): (resolve: Address -> ChatId) {
    a => MapAddress(config, a)
  }

  /** The chat of every recipient, in recipient order, duplicates included. */
  function Resolved(config: Config, to: seq<Address>): (chats: seq<ChatId>) {
    KeysOf(to, Resolver(config))
  }

  /** The chats a message to `to` is sent to: the resolved chats, each kept at its first occurrence. */
  function Destinations(config: Config, to: seq<Address>): (dests: seq<ChatId>) {
    KeysOf(DedupBy(to, Resolver(config)), Resolver(config))
  }

  /**
   * The destinations are the distinct chats of the recipients, each once, in
   * the order in which they first occur among the resolved chats; there are
   * no more of them than recipients.
   */
  lemma DestinationsSpec(config: Config, to: seq<Address>)
    ensures NoDuplicates(Destinations(config, to))
    ensures |Destinations(config, to)| <= |to|
    ensures forall d :: d in Destinations(config, to) <==> exists i :: 0 <= i < |to| && MapAddress(config, to[i]) == d
    ensures forall i, j :: 0 <= i < j < |Destinations(config, to)| ==>
      var ds, rs := Destinations(config, to), Resolved(config, to);
      FirstIndex(rs, ds[i]) < FirstIndex(rs, ds[j])
  {
    var r := Resolver(config);
    var kept := DedupBy(to, r);
    DedupByFirstSeen(to, r);
    forall d | d in Resolved(config, to)
      ensures exists i :: 0 <= i < |to| && MapAddress(config, to[i]) == d
    {
      var i :| 0 <= i < |to| && Resolved(config, to)[i] == d;
    }
    forall i | 0 <= i < |to|
      ensures MapAddress(config, to[i]) in Resolved(config, to)
    {
      assert Resolved(config, to)[i] == MapAddress(config, to[i]);
    }
  }

  /** Resolving one more recipient adds its chat to the destinations unless it is already there. */
  lemma DestinationsSnoc(config: Config, to: seq<Address>, a: Address)
    ensures Destinations(config, to + [a]) ==
      if MapAddress(config, a) in Destinations(config, to) then Destinations(config, to)
      else Destinations(config, to) + [MapAddress(config, a)]
  {
    var r := Resolver(config);
    DedupBySnoc(to, a, r);
    KeysOfSnoc(DedupBy(to, r), a, r);
  }

  /** However many recipients share one chat, that chat is the only destination. */
  lemma {:induction false} SharedChatSentOnce(config: Config, to: seq<Address>, chatId: ChatId)
    requires to != []
    requires forall i :: 0 <= i < |to| ==> MapAddress(config, to[i]) == chatId
    ensures Destinations(config, to) == [chatId]
  {
    var last := to[|to| - 1];
    var init := to[..|to| - 1];
    assert to == init + [last];
    DestinationsSnoc(config, init, last);
    if init != [] {
      SharedChatSentOnce(config, init, chatId);
    }
  }

  /**
   * The template context: every header under its own name with its values
   * joined by ", ", and the key "Body" holding the body, whatever a header
   * of that name says.
   */
  function TemplateContext(header: map<string, seq<string>>, body: string): (ctx: map<string, string>)
    ensures ctx.Keys == header.Keys + {"Body"}
    ensures ctx["Body"] == body
    ensures forall key :: key in header && key != "Body" ==> ctx[key] == Join(header[key], ", ")
  {
    (map key | key in header :: Join(header[key], ", "))["Body" := body]
  }

  /**
   * The text Sendmail delivers, or the error it returns before sending: a
   * body that cannot be read, a template that fails to parse or execute, or
   * an empty rendering.
   */
  function Compose(format: string, email: MailMessage, render: Renderer): (r: Result<string>)
    ensures r.Success? ==>
      && r.value != ""
      && email.body.Readable?
      && render(format, TemplateContext(email.header, email.body.content)) == Success(r.value)
    ensures email.body.Unreadable? ==> r == Failure(email.body.error)
    ensures email.body.Readable? && render(format, TemplateContext(email.header, email.body.content)).Failure? ==>
      r == render(format, TemplateContext(email.header, email.body.content))
    ensures email.body.Readable? && render(format, TemplateContext(email.header, email.body.content)) == Success("") ==>
      r == Failure(EmptyMessage)
    ensures
      && email.body.Readable?
      && render(format, TemplateContext(email.header, email.body.content)).Success?
      && render(format, TemplateContext(email.header, email.body.content)).value != ""
      ==> r == render(format, TemplateContext(email.header, email.body.content))
  {
    match email.body
    case Unreadable(e) => Failure(e)
    case Readable(body) =>
      match render(format, TemplateContext(email.header, body))
      case Failure(e) => Failure(e)
      case Success(text) => if |text| == 0 then Failure(EmptyMessage) else Success(text)
  }

  /**
   * `after` is `before` followed by one send of `text` in parse mode `mode`
   * to each of `dests`, in order; each send may have succeeded or failed.
   */
  ghost predicate SendsAppended(before: seq<Attempt>, after: seq<Attempt>, dests: seq<ChatId>, text: string, mode: string) {
    && |after| == |before| + |dests|
    && after[..|before|] == before
    && forall k :: 0 <= k < |dests| ==> after[|before| + k].message == MessageConfig(dests[k], text, mode)
  }

  lemma SendsAppendedSnoc(before: seq<Attempt>, after: seq<Attempt>, dests: seq<ChatId>, text: string, mode: string,
                          chatId: ChatId, delivered: bool)
    requires SendsAppended(before, after, dests, text, mode)
    ensures SendsAppended(before, after + [Attempt(MessageConfig(chatId, text, mode), delivered)], dests + [chatId], text, mode)
  {
    var after' := after + [Attempt(MessageConfig(chatId, text, mode), delivered)];
    assert after'[..|before|] == after[..|before|];
  }

  /** Fills the template context header by header, in no particular order, then sets "Body". */
  method BuildTemplateContents(header: map<string, seq<string>>, body: string) returns (ctx: map<string, string>)
    ensures ctx == TemplateContext(header, body)
  {
    ctx := map[];
    var pending := header.Keys;
    while pending != {}
      invariant pending <= header.Keys
      invariant ctx.Keys == header.Keys - pending
      invariant forall key :: key in ctx ==> ctx[key] == Join(header[key], ", ")
      decreases pending
    {
      var key :| key in pending;
      ctx := ctx[key := Join(header[key], ", ")];
      pending := pending - {key};
    }
    ctx := ctx["Body" := body];
  }

  class SendmailTg {
    const config: Config
    const session: Session

    constructor (config: Config, session: Session)
      ensures this.config == config && this.session == session
    {
      this.config := config;
      this.session := session;
    }

    /**
     * Builds an engine. `connect` is the outcome of opening the bot session
     * with the token and checking it with the platform; its error is
     * returned as is. A blank format is replaced by the built-in one.
     */
    static method New(config: Config, connect: Result<Session>) returns (r: Result<SendmailTg>)
      ensures connect.Failure? ==> r == Failure(connect.error)
      ensures connect.Success? ==> r.Success? && fresh(r.value) && r.value.session == connect.value
      ensures connect.Success? ==> r.value.config == config.(format := NormalizedFormat(config.format))
    {
      var format := config.format;
      if TrimSpace(config.format) == "" {
        format := DefaultFormat;
      }
      if connect.Failure? {
        return Failure(connect.error);
      }
      var stg := new SendmailTg(config.(format := format), connect.value);
      return Success(stg);
    }

    /**
     * Lists the chats that have written to the bot, as the code is written:
     * a chat is collected only when already marked as notified, which never
     * happens, so the list is always empty. A failed fetch returns its error.
     * `fetched` is the outcome of the fetch, which the platform decides.
     */
    method Updates() returns (r: Result<seq<Chat>>, ghost fetched: Result<seq<Update>>)
      ensures fetched.Success? ==> fetched.value == session.backlog
      ensures fetched.Failure? ==> r == Failure(fetched.error)
      ensures fetched.Success? ==> r == Success(CollectAsWritten(session.backlog, map[], []))
      ensures fetched.Success? ==> r == Success([])
      ensures r.Success? ==> r.value == []
    {
      var got := session.GetUpdates();
      fetched := got;
      if got.Failure? {
        r := Failure(got.error);
        return;
      }
      var updates := got.value;
      var notified: map<ChatId, bool> := map[];
      var chats: seq<Chat> := [];
      for i := 0 to |updates|
        invariant CollectAsWritten(updates[i..], notified, chats) == CollectAsWritten(updates, map[], [])
      {
        assert updates[i..][1..] == updates[i + 1..];
        var u := updates[i];
        if u.message.None? {
          continue;
        }
        if u.message.value.chat.None? {
          continue;
        }
        var chat := u.message.value.chat.value;
        if IsSet(notified, chat.id) {
          chats := chats + [chat];
          notified := notified[chat.id := true];
        }
        if |chats| > MaxChats {
          break;
        }
      }
      assert updates[|updates|..] == [];
      AsWrittenCollectsNothing(updates, map[], []);
      r := Success(chats);
    }

    /**
     * Lists the chats that have written to the bot as intended: each chat
     * the first time its id is seen, stopping at MaxChats. `fetched` is the
     * outcome of the fetch, which the platform decides.
     */
    method DiscoverChats() returns (r: Result<seq<Chat>>, ghost fetched: Result<seq<Update>>)
      ensures fetched.Success? ==> fetched.value == session.backlog
      ensures fetched.Failure? ==> r == Failure(fetched.error)
      ensures fetched.Success? ==> r == Success(IntendedChats(session.backlog))
      ensures r.Success? ==> r.value == IntendedChats(session.backlog)
    {
      var got := session.GetUpdates();
      fetched := got;
      if got.Failure? {
        r := Failure(got.error);
        return;
      }
      var updates := got.value;
      var notified: map<ChatId, bool> := map[];
      var chats: seq<Chat> := [];
      for i := 0 to |updates|
        invariant |chats| < MaxChats
        invariant chats == Discovered(updates, i) && notified == NotifiedAfter(chats)
      {
        DiscoverStep(updates, i, chats);
        var u := updates[i];
        if u.message.None? {
          continue;
        }
        if u.message.value.chat.None? {
          continue;
        }
        var chat := u.message.value.chat.value;
        if !IsSet(notified, chat.id) {
          chats := chats + [chat];
          notified := notified[chat.id := true];
        }
        if |chats| >= MaxChats {
          IntendedStop(updates, i + 1);
          break;
        }
      }
      assert updates[..|updates|] == updates;
      IntendedShort(updates);
      r := Success(chats);
    }

    /**
     * The send loop of Sendmail: `tgmsg` goes once to each distinct chat the
     * recipients resolve to, in recipient order, with only its chat id
     * changed. A failed send is not retried and does not stop the loop.
     */
    method FanOut(to: seq<Address>, tgmsg: MessageConfig)
      modifies session`sent
      ensures SendsAppended(old(session.sent), session.sent, Destinations(config, to), tgmsg.text, tgmsg.parseMode)
    {
      var msg := tgmsg;
      var sentTo: map<ChatId, bool> := map[];
      for i := 0 to |to|
        invariant msg.text == tgmsg.text && msg.parseMode == tgmsg.parseMode
        invariant forall d :: IsSet(sentTo, d) <==> d in Destinations(config, to[..i])
        invariant SendsAppended(old(session.sent), session.sent, Destinations(config, to[..i]), tgmsg.text, tgmsg.parseMode)
      {
        var chatId := MapAddress(config, to[i]);
        assert to[..i + 1] == to[..i] + [to[i]];
        DestinationsSnoc(config, to[..i], to[i]);
        if !IsSet(sentTo, chatId) {
          msg := msg.(chatId := chatId);
          ghost var before := session.sent;
          var sendErr := session.Send(msg);
          // a failed send is only logged: the chat still counts as served
          SendsAppendedSnoc(old(session.sent), before, Destinations(config, to[..i]), tgmsg.text, tgmsg.parseMode, chatId, sendErr.None?);
          sentTo := sentTo[chatId := true];
        }
      }
      assert to[..|to|] == to;
    }

    /**
     * Renders `email` once and sends the text, in Markdown, once to each
     * distinct chat the recipients resolve to, in recipient order. A failed
     * send is not retried and does not stop the others; once rendering has
     * succeeded the call reports success.
     */
    method Sendmail(to: seq<Address>, email: MailMessage, render: Renderer) returns (err: Option<Error>)
      modifies session`sent
      ensures Compose(config.format, email, render).Failure? ==>
        err == Some(Compose(config.format, email, render).error) && session.sent == old(session.sent)
      ensures Compose(config.format, email, render).Success? ==>
        err == None &&
        SendsAppended(old(session.sent), session.sent, Destinations(config, to), Compose(config.format, email, render).value, ModeMarkdown)
    {
      if email.body.Unreadable? {
        return Some(email.body.error);
      }
      var templateContents := BuildTemplateContents(email.header, email.body.content);
      var rendered := render(config.format, templateContents);
      if rendered.Failure? {
        return Some(rendered.error);
      }
      var text := rendered.value;
      if |text| == 0 {
        return Some(EmptyMessage);
      }
      var tgmsg := NewMessage(0, text);
      tgmsg := tgmsg.(parseMode := ModeMarkdown);
      FanOut(to, tgmsg);
      return None;
    }
  }
}
