/** `find_chat_id` and `notify`: picking the chat to post to from the bot's
    update history, and deciding whether a message is sent and reported as
    delivered. The HTTP calls are inputs: the update list one poll returned,
    and the reply to the send request. */
module Notifier {
  import opened Outcomes

  /** The parts of a Telegram update that discovery looks at: an update may
      carry a `message` and/or a `channel_post`, and each may carry a `chat`. */
  datatype Chat = Chat(id: int)
  datatype Post = Post(chat: Option<Chat>)
  datatype Update = Update(message: Option<Post>, channelPost: Option<Post>)

  /** The chat of a post, if both are present. */
  function PostChat(p: Option<Post>): Option<Chat>
  {
    if p.Some? then p.value.chat else None
  }

  /** The chat one update contributes: the message's chat wins over the channel
      post's, and there is one exactly when either carries a chat. */
  function UpdateChat(u: Update): (c: Option<Chat>)
    ensures c.Some? <==> PostChat(u.message).Some? || PostChat(u.channelPost).Some?
    ensures c.Some? ==> c == PostChat(u.message) || c == PostChat(u.channelPost)
    ensures PostChat(u.message).Some? ==> c == PostChat(u.message)
  {
    if PostChat(u.message).Some? then PostChat(u.message) else PostChat(u.channelPost)
  }

  // ---------------------------------------------------------------------------
  // `str(id)`: decimal text of an integer chat id, with its inverse.
  // ---------------------------------------------------------------------------

  predicate IsDigit(c: char)
  {
    '0' <= c <= '9'
  }

  predicate AllDigits(s: string)
  {
    forall k :: 0 <= k < |s| ==> IsDigit(s[k])
  }

  function DigitChar(d: nat): (c: char)
    requires d < 10
    ensures IsDigit(c) && (c as int) - ('0' as int) == d
  {
    ('0' as int + d) as char
  }

  /** Decimal digits of `n`, most significant first, without leading zeros. */
  function NatText(n: nat): (s: string)
    ensures |s| > 0 && AllDigits(s)
    ensures n > 0 ==> s[0] != '0'
    decreases n
  {
    if n < 10 then [DigitChar(n)] else NatText(n / 10) + [DigitChar(n % 10)]
  }

  /** Python's `str` of an int: a leading `-` for negative ids (channels and groups). */
  function DecimalText(i: int): (s: string)
    ensures |s| > 0
  {
    if i < 0 then "-" + NatText(-i) else NatText(i)
  }

  /** Value of a string of decimal digits. */
  function DigitsValue(s: string): nat
    requires AllDigits(s)
  {
    if |s| == 0 then 0
    else DigitsValue(s[..|s| - 1]) * 10 + ((s[|s| - 1] as int) - ('0' as int))
  }

  /** Reads back a decimal integer: an optional `-` then at least one digit. */
  function ParseDecimal(s: string): Option<int>
  {
    if |s| > 0 && s[0] == '-' then
      if |s| > 1 && AllDigits(s[1..]) then Some(-(DigitsValue(s[1..]) as int)) else None
    else if |s| > 0 && AllDigits(s) then Some(DigitsValue(s) as int)
    else None
  }

  lemma {:induction false} NatTextValue(n: nat)
    ensures DigitsValue(NatText(n)) == n
    decreases n
  {
    if n >= 10 {
      var s := NatText(n);
      NatTextValue(n / 10);
      assert s[..|s| - 1] == NatText(n / 10);
    }
  }

  /** The text sent as `chat_id` reads back as the chat's id. */
  lemma DecimalRoundTrip(i: int)
    ensures ParseDecimal(DecimalText(i)) == Some(i)
  {
    var s := DecimalText(i);
    if i < 0 {
      NatTextValue(-i);
      assert s[1..] == NatText(-i);
    } else {
      NatTextValue(i);
    }
  }

  /** Distinct chats give distinct destination strings. */
  lemma DecimalTextInjective(i: int, j: int)
    ensures DecimalText(i) == DecimalText(j) <==> i == j
  {
    DecimalRoundTrip(i);
    DecimalRoundTrip(j);
  }

  // ---------------------------------------------------------------------------
  // Discovery.
  // ---------------------------------------------------------------------------

  /** The update-selection loop of one poll: scanning `updates` from the newest,
      the text of the first chat found, or `""` when no update has one. */
  function FindChatId(updates: seq<Update>): (id: string)
    ensures id == "" <==> forall j :: 0 <= j < |updates| ==> UpdateChat(updates[j]).None?
    decreases |updates|
  {
    if |updates| == 0 then ""
    else
      var u := updates[|updates| - 1];
      if UpdateChat(u).Some? then DecimalText(UpdateChat(u).value.id)
      else
        var front := updates[..|updates| - 1];
        assert forall j :: 0 <= j < |front| ==> front[j] == updates[j];
        FindChatId(front)
  }

  /** The newest update that names a chat decides the destination; older ones
      and newer chat-less ones are irrelevant. */
  lemma {:induction false} NewestChatWins(updates: seq<Update>, k: nat)
    requires k < |updates| && UpdateChat(updates[k]).Some?
    requires forall j :: k < j < |updates| ==> UpdateChat(updates[j]).None?
    ensures FindChatId(updates) == DecimalText(UpdateChat(updates[k]).value.id)
    decreases |updates|
  {
    if k < |updates| - 1 {
      var front := updates[..|updates| - 1];
      assert forall j :: k < j < |front| ==> front[j] == updates[j];
      NewestChatWins(front, k);
    }
  }

  /** Within one update a message's chat is taken over a channel post's. */
  lemma MessageBeforeChannelPost(older: seq<Update>, m: Chat, c: Option<Chat>)
    ensures FindChatId(older + [Update(Some(Post(Some(m))), Some(Post(c)))]) == DecimalText(m.id)
  {
    var us := older + [Update(Some(Post(Some(m))), Some(Post(c)))];
    assert us[|us| - 1] == Update(Some(Post(Some(m))), Some(Post(c)));
  }

  // ---------------------------------------------------------------------------
  // The send decision.
  // ---------------------------------------------------------------------------

  /** The body of `sendMessage` (its `parse_mode` is always Markdown). */
  datatype SendRequest = SendRequest(chatId: string, text: string)

  /** What one `notify` call did: the request it sent, if any; whether it reports
      success; and the chat id it leaves configured for later calls. */
  datatype Delivery = Delivery(request: Option<SendRequest>, delivered: bool, chatId: string)

  /** `notify(text)` with `token` and `chatId` the configured values (`""` when
      unset), `updates` what discovery's poll would return, and `reply` the send
      outcome: `Failure` for an exception, otherwise whether the reply's `ok`
      field is true (a missing field counts as false). */
  function Notify(token: string, chatId: string, updates: seq<Update>, text: string,
                  reply: Result<bool, string>): (d: Delivery)
    ensures token == "" ==> d == Delivery(None, false, chatId)
    ensures token != "" && chatId != "" ==> d.chatId == chatId
    ensures token != "" && chatId == "" ==> d.chatId == FindChatId(updates)
    ensures d.request.Some? <==> token != "" && d.chatId != ""
    ensures d.request.Some? ==> d.request.value == SendRequest(d.chatId, text)
    ensures d.delivered <==> d.request.Some? && reply == Success(true)
  {
    if token == "" then
      Delivery(None, false, chatId)
    else
      var dest := if chatId != "" then chatId else FindChatId(updates);
      if dest == "" then Delivery(None, false, dest)
      else Delivery(Some(SendRequest(dest, text)), reply == Success(true), dest)
  }

  /** Without a configured chat, a message goes out exactly when the token is set
      and some update names a chat; it goes to the newest such chat. */
  lemma DiscoveredDestination(token: string, updates: seq<Update>, text: string,
                              reply: Result<bool, string>, k: nat)
    requires token != "" && k < |updates| && UpdateChat(updates[k]).Some?
    requires forall j :: k < j < |updates| ==> UpdateChat(updates[j]).None?
    ensures Notify(token, "", updates, text, reply).request ==
            Some(SendRequest(DecimalText(UpdateChat(updates[k]).value.id), text))
  {
    NewestChatWins(updates, k);
  }

  /** With no chat configured and no update naming one, nothing is sent and the
      call fails whatever the reply would have been. */
  lemma NoChatNoSend(token: string, updates: seq<Update>, text: string, reply: Result<bool, string>)
    requires forall j :: 0 <= j < |updates| ==> UpdateChat(updates[j]).None?
    ensures Notify(token, "", updates, text, reply) == Delivery(None, false, "")
  {
  }

  /** The discovered id is kept: a later call with the returned chat id sends to
      the same chat without looking at the updates again. */
  lemma StickyDestination(token: string, chatId: string, updates: seq<Update>, text: string,
                          reply: Result<bool, string>, later: seq<Update>, text2: string,
                          reply2: Result<bool, string>)
    requires Notify(token, chatId, updates, text, reply).request.Some?
    ensures var d := Notify(token, chatId, updates, text, reply);
      Notify(token, d.chatId, later, text2, reply2) ==
      Delivery(Some(SendRequest(d.chatId, text2)), reply2 == Success(true), d.chatId)
  {
  }
}
