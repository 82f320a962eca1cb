/**
 * Chat discovery (`Updates`): scan the bot's update backlog for messages and
 * report the chats they came from, so that an operator can fill in the
 * address mapping. Two readings are given: the loop as it is written, which
 * collects nothing, and the loop as evidently intended.
 */
module Discovery {
  import opened Wrappers
  import opened Collections
  import opened Telegram

  /** The number of chats discovery is meant to report at most. */
  const MaxChats: nat := 5

  /** The chat of an update, when the update carries a message and the message a chat. */
  function ChatOf(u: Update): (c: Option<Chat>) {
    match u.message
    case None => None
    case Some(m) => m.chat
  }

  /** The chats of the updates that carry a message in a chat, in backlog order. */
  function MessageChats(updates: seq<Update>): (cs: seq<Chat>) {
    if updates == [] then []
    else
      var init, last := updates[..|updates| - 1], updates[|updates| - 1];
      MessageChats(init) + (match ChatOf(last) case None => [] case Some(c) => [c])
  }

  /** A chat is among the message chats exactly when some update of the backlog carries a message from it. */
  lemma {:induction false} MessageChatsSpec(updates: seq<Update>)
    ensures |MessageChats(updates)| <= |updates|
    ensures forall c :: c in MessageChats(updates) <==> exists i :: 0 <= i < |updates| && ChatOf(updates[i]) == Some(c)
    decreases |updates|
  {
    if updates != [] {
      var init := updates[..|updates| - 1];
      MessageChatsSpec(init);
      assert forall i :: 0 <= i < |init| ==> init[i] == updates[i];
    }
  }

  lemma {:induction false} MessageChatsAppend(a: seq<Update>, b: seq<Update>)
    ensures MessageChats(a + b) == MessageChats(a) + MessageChats(b)
    decreases |b|
  {
    if b == [] {
      assert a + b == a;
    } else {
      var b0 := b[..|b| - 1];
      assert (a + b)[..|a + b| - 1] == a + b0;
      assert b[..|b| - 1] == b0;
      MessageChatsAppend(a, b0);
    }
  }

  /** The identifier by which discovery tells chats apart. */
  function ChatKey(c: Chat): (id: ChatId) {
    c.id
  }

  // ---------------------------------------------------------------------
  // The loop as written

  /**
   * The result of the collection loop of `Updates` as written, when it is
   * run over `updates` from a state with the given `notified` map and
   * collected `chats`. A chat is appended only when its id is already marked
   * in `notified`, and the loop stops once more than MaxChats are collected.
   */
  function CollectAsWritten(updates: seq<Update>, notified: map<ChatId, bool>, chats: seq<Chat>): (r: seq<Chat>)
    ensures chats <= r && |r| <= |chats| + |updates|
    ensures forall k :: |chats| <= k < |r| ==> IsSet(notified, r[k].id)
    decreases |updates|
  {
    if updates == [] then chats
    else
      match ChatOf(updates[0])
      case None => CollectAsWritten(updates[1..], notified, chats)
      case Some(chat) =>
        var hit := IsSet(notified, chat.id);
        var chats' := if hit then chats + [chat] else chats;
        var notified' := if hit then notified[chat.id := true] else notified;
        // marking an id that is already marked leaves the map as it was
        assert notified' == notified;
        if |chats'| > MaxChats then chats' else CollectAsWritten(updates[1..], notified', chats')
  }

  /**
   * While no id is marked in `notified`, the loop as written appends nothing
   * and marks nothing, so it returns the chats it started with. `Updates`
   * starts from an empty map and an empty list: it always reports no chats.
   */
  lemma {:induction false} AsWrittenCollectsNothing(updates: seq<Update>, notified: map<ChatId, bool>, chats: seq<Chat>)
    requires forall id :: !IsSet(notified, id)
    ensures CollectAsWritten(updates, notified, chats) == chats
    decreases |updates|
  {
    if updates != [] {
      AsWrittenCollectsNothing(updates[1..], notified, chats);
    }
  }

  /**
   * The stopping test of the loop as written admits one chat more than
   * MaxChats: started with at most MaxChats chats it returns at most MaxChats + 1.
   */
  lemma {:induction false} AsWrittenBound(updates: seq<Update>, notified: map<ChatId, bool>, chats: seq<Chat>)
    requires |chats| <= MaxChats
    ensures |CollectAsWritten(updates, notified, chats)| <= MaxChats + 1
    decreases |updates|
  {
    if updates != [] && ChatOf(updates[0]).Some? {
      var chat := ChatOf(updates[0]).value;
      var hit := IsSet(notified, chat.id);
      var chats' := if hit then chats + [chat] else chats;
      var notified' := if hit then notified[chat.id := true] else notified;
      if |chats'| <= MaxChats {
        AsWrittenBound(updates[1..], notified', chats');
      }
    } else if updates != [] {
      AsWrittenBound(updates[1..], notified, chats);
    }
  }

  /**
   * The bound of AsWrittenBound is reached: once five chats are collected, a
   * message from a marked chat makes the loop as written hold a sixth.
   */
  lemma AsWrittenAcceptsSixth(five: seq<Chat>, chat: Chat)
    requires |five| == MaxChats
    ensures |CollectAsWritten([Update(Some(Message(Some(chat))))], map[chat.id := true], five)| == MaxChats + 1
  {
  }

  // ---------------------------------------------------------------------
  // The loop as intended

  /**
   * What discovery is meant to report: one chat per id, the first one seen
   * for that id, in the order the ids first occur, and at most MaxChats.
   */
  function IntendedChats(updates: seq<Update>): (r: seq<Chat>) {
    var distinct := DedupBy(MessageChats(updates), ChatKey);
    if |distinct| <= MaxChats then distinct else distinct[..MaxChats]
  }

  /**
   * Intended discovery reports at most MaxChats chats with distinct ids, each
   * from a message of the backlog; when it reports fewer than MaxChats, every
   * chat with a message in the backlog is among them.
   */
  lemma IntendedChatsSpec(updates: seq<Update>)
    ensures |IntendedChats(updates)| <= MaxChats
    ensures NoDuplicates(KeysOf(IntendedChats(updates), ChatKey))
    ensures forall c :: c in IntendedChats(updates) ==> exists i :: 0 <= i < |updates| && ChatOf(updates[i]) == Some(c)
    ensures |IntendedChats(updates)| < MaxChats ==>
      forall i :: 0 <= i < |updates| && ChatOf(updates[i]).Some? ==> ChatOf(updates[i]).value.id in KeysOf(IntendedChats(updates), ChatKey)
  {
    var cs := MessageChats(updates);
    MessageChatsSpec(updates);
    var distinct := DedupBy(cs, ChatKey);
    var r := IntendedChats(updates);
    assert r <= distinct;
    assert KeysOf(r, ChatKey) == KeysOf(distinct, ChatKey)[..|r|];
    forall c | c in r
      ensures exists i :: 0 <= i < |updates| && ChatOf(updates[i]) == Some(c)
    {
      assert c in distinct;
      DedupByFirstSeen(cs, ChatKey);
      var j :| 0 <= j < |distinct| && distinct[j] == c;
      assert c in cs;
    }
    if |r| < MaxChats {
      forall i | 0 <= i < |updates| && ChatOf(updates[i]).Some?
        ensures ChatOf(updates[i]).value.id in KeysOf(r, ChatKey)
      {
        var c := ChatOf(updates[i]).value;
        assert c in cs;
        var k :| 0 <= k < |cs| && cs[k] == c;
        assert KeysOf(cs, ChatKey)[k] == c.id;
      }
    }
  }

  /** No id that first occurs before a reported chat's id is left out of the report. */
  lemma IntendedChatsNoGap(updates: seq<Update>)
    ensures var r, ks := IntendedChats(updates), KeysOf(MessageChats(updates), ChatKey);
      forall j, k :: 0 <= j < |r| && 0 <= k < FirstIndex(ks, r[j].id) ==> ks[k] in KeysOf(r, ChatKey)
  {
    var cs := MessageChats(updates);
    var distinct, r := DedupBy(cs, ChatKey), IntendedChats(updates);
    assert r == distinct[..|r|];
    DedupByNoGap(cs, ChatKey);
    forall j, k | 0 <= j < |r| && 0 <= k < FirstIndex(KeysOf(cs, ChatKey), r[j].id)
      ensures KeysOf(cs, ChatKey)[k] in KeysOf(r, ChatKey)
    {
      assert r[j] == distinct[j] && ChatKey(r[j]) == r[j].id;
      var before := KeysOf(distinct[..j], ChatKey);
      assert KeysOf(cs, ChatKey)[k] in before;
      var m :| 0 <= m < |before| && before[m] == KeysOf(cs, ChatKey)[k];
      assert KeysOf(r, ChatKey)[m] == before[m];
    }
  }

  /** The chats intended discovery has collected after scanning the first `n` updates, before any cap. */
  function Discovered(updates: seq<Update>, n: nat): (r: seq<Chat>)
    requires n <= |updates|
  {
    DedupBy(MessageChats(updates[..n]), ChatKey)
  }

  /** Scanning one more update adds its chat when the chat's id is new. */
  lemma IntendedStep(updates: seq<Update>, i: nat)
    requires i < |updates|
    ensures var before := Discovered(updates, i);
      Discovered(updates, i + 1) ==
        match ChatOf(updates[i])
        case None => before
        case Some(c) => if c.id in KeysOf(before, ChatKey) then before else before + [c]
  {
    assert updates[..i + 1] == updates[..i] + [updates[i]];
    MessageChatsAppend(updates[..i], [updates[i]]);
    assert [updates[i]][..0] == [];
    var cs := MessageChats(updates[..i]);
    if ChatOf(updates[i]).Some? {
      var c := ChatOf(updates[i]).value;
      assert MessageChats([updates[i]]) == [c];
      DedupBySnoc(cs, c, ChatKey);
    } else {
      assert MessageChats([updates[i]]) == [];
      assert cs + [] == cs;
    }
  }

  /** The `notified` map after collecting `chats`: every collected id marked. */
  function NotifiedAfter(chats: seq<Chat>): (notified: map<ChatId, bool>) {
    map id | id in KeysOf(chats, ChatKey) :: true
  }

  /** An id is marked after collecting `chats` exactly when one of them has it; collecting one more marks its id. */
  lemma NotifiedAfterSpec(chats: seq<Chat>, chat: Chat)
    ensures IsSet(NotifiedAfter(chats), chat.id) <==> chat.id in KeysOf(chats, ChatKey)
    ensures NotifiedAfter(chats + [chat]) == NotifiedAfter(chats)[chat.id := true]
  {
    KeysOfSnoc(chats, chat, ChatKey);
  }

  /**
   * One iteration of the intended loop: an update without a chat changes
   * nothing; a chat whose id is not yet marked is collected and marked.
   */
  lemma DiscoverStep(updates: seq<Update>, i: nat, chats: seq<Chat>)
    requires i < |updates| && chats == Discovered(updates, i)
    ensures ChatOf(updates[i]).None? ==> Discovered(updates, i + 1) == chats
    ensures ChatOf(updates[i]).Some? ==>
      var c := ChatOf(updates[i]).value;
      && (IsSet(NotifiedAfter(chats), c.id) ==> Discovered(updates, i + 1) == chats)
      && (!IsSet(NotifiedAfter(chats), c.id) ==> Discovered(updates, i + 1) == chats + [c])
      && NotifiedAfter(chats + [c]) == NotifiedAfter(chats)[c.id := true]
  {
    IntendedStep(updates, i);
    if ChatOf(updates[i]).Some? {
      NotifiedAfterSpec(chats, ChatOf(updates[i]).value);
    }
  }

  /** Fewer than MaxChats distinct chats in the whole backlog are all reported. */
  lemma IntendedShort(updates: seq<Update>)
    ensures |DedupBy(MessageChats(updates), ChatKey)| < MaxChats ==>
      IntendedChats(updates) == DedupBy(MessageChats(updates), ChatKey)
  {
  }

  /** Once MaxChats distinct chats are seen in a prefix of the backlog, they are the intended result. */
  lemma IntendedStop(updates: seq<Update>, n: nat)
    requires n <= |updates| && |Discovered(updates, n)| == MaxChats
    ensures IntendedChats(updates) == Discovered(updates, n)
  {
    assert updates == updates[..n] + updates[n..];
    MessageChatsAppend(updates[..n], updates[n..]);
    DedupByExtend(MessageChats(updates[..n]), MessageChats(updates[n..]), ChatKey);
  }

  /** Each reported chat is the first chat seen with its id, and they are reported in first-seen order. */
  lemma IntendedChatsFirstSeen(updates: seq<Update>)
    ensures var r, cs := IntendedChats(updates), MessageChats(updates);
      forall j :: 0 <= j < |r| ==> r[j] == cs[FirstIndex(KeysOf(cs, ChatKey), r[j].id)]
    ensures var r, ks := IntendedChats(updates), KeysOf(MessageChats(updates), ChatKey);
      forall i, j :: 0 <= i < j < |r| ==> FirstIndex(ks, r[i].id) < FirstIndex(ks, r[j].id)
  {
    var cs := MessageChats(updates);
    var distinct, r := DedupBy(cs, ChatKey), IntendedChats(updates);
    var ks := KeysOf(cs, ChatKey);
    assert r == distinct[..|r|];
    forall j | 0 <= j < |r|
      ensures r[j] == cs[FirstIndex(ks, r[j].id)]
    {
      DedupByKeepsFirst(cs, ChatKey);
      assert r[j] == distinct[j];
    }
    forall i, j | 0 <= i < j < |r|
      ensures FirstIndex(ks, r[i].id) < FirstIndex(ks, r[j].id)
    {
      DedupByKeepsOrder(cs, ChatKey);
      assert r[i] == distinct[i] && r[j] == distinct[j];
    }
  }
}
