/**
 * The chat content script (content.js): `parseChatId`, the chat list read
 * from the page's chat links, `sendMessageToChat` typing into the chat's
 * input and pressing its send button, and the message listener that answers
 * GET_CHAT_LIST and SEND_MESSAGE. The page is a `Dom.Node`; the page's
 * address is the string `location`; the effects on the page are returned in
 * order.
 */
module Content {
  import opened Wrappers
  import opened Text
  import opened Capture
  import opened Dom
  import opened HhUrls
  import ResumeUtils

  // ---------------------------------------------------------------------
  // parseChatId

  /** `url && url.match(/\/chat\/(\d+)/)`: the digits after the leftmost "/chat/" followed by a digit. */
  function ParseChatId(url: string): (r: Option<string>)
    ensures r.Some? ==> r.value != "" && AllChars(r.value, IsDigit)
  {
    if url == "" then None
    else match LeftmostCapture(url, "/chat/", IsDigit, 0)
      case None => None
      case Some(k) => Some(CaptureRun(url, "/chat/", IsDigit, k))
  }

  /** null exactly when no "/chat/" is followed by a digit; otherwise the whole digit run after the leftmost such "/chat/". */
  lemma ParseChatIdMatches(url: string)
    ensures ParseChatId(url).None? <==> forall k :: !CaptureAt(url, "/chat/", IsDigit, k)
    ensures ParseChatId(url).Some? ==>
      exists k :: IsLeftmostCapture(url, "/chat/", IsDigit, k) && ParseChatId(url).value == CaptureRun(url, "/chat/", IsDigit, k)
  {
    if url == "" {
      assert forall k :: !CaptureAt(url, "/chat/", IsDigit, k);
    } else if LeftmostCapture(url, "/chat/", IsDigit, 0).Some? {
      assert IsLeftmostCapture(url, "/chat/", IsDigit, LeftmostCapture(url, "/chat/", IsDigit, 0).value);
    }
  }

  /** The address `sendMessageToChat` navigates to. */
  function ChatUrl(chatId: string): string {
    Origin + "/chat/" + chatId
  }

  /** A chat's own address gives its id back. */
  lemma {:induction false} ParseChatUrl(chatId: string)
    requires chatId != "" && AllChars(chatId, IsDigit)
    ensures ParseChatId(ChatUrl(chatId)) == Some(chatId)
  {
    var s := ChatUrl(chatId);
    var n := |Origin|;
    assert s[n..n + 6] == "/chat/";
    assert CaptureAt(s, "/chat/", IsDigit, n) by { assert s[n + 6] == chatId[0]; }
    forall k | 0 <= k < n ensures !CaptureAt(s, "/chat/", IsDigit, k) {
      assert s[k..k + 6][0] == s[k];
      assert s[k..k + 6][1] == s[k + 1];
    }
    forall k | n < k ensures !CaptureAt(s, "/chat/", IsDigit, k) {
      if k + 6 <= |s| {
        assert s[k..k + 6][0] == s[k];
        if k < n + 6 {
          assert s[k] == "/chat/"[k - n];
        } else {
          assert s[k] == chatId[k - n - 6];
        }
      }
    }
    assert IsLeftmostCapture(s, "/chat/", IsDigit, n);
    var e := RunEnd(s, IsDigit, n + 6);
    forall j | n + 6 <= j < |s| ensures IsDigit(s[j]) {
      assert s[j] == chatId[j - n - 6];
    }
    assert e == |s|;
    assert CaptureRun(s, "/chat/", IsDigit, n) == chatId;
  }

  // ---------------------------------------------------------------------
  // getChatList

  const ChatLinks: string := "a[href*=\"/chat/\"]"

  datatype Chat = Chat(id: string, chatId: string, name: string, lastMessage: string,
                       messageCount: nat, url: string, isActive: bool)

  /** `link.href`: the property, resolved by the browser against the page's address, not the raw attribute. */
  function HrefOf(link: Node): string {
    link.resolvedHref
  }

  /** `parseChatId(link.href)` for each link, in document order. */
  function LinkChatIds(links: seq<Node>): (ids: seq<Option<string>>)
    ensures |ids| == |links|
    ensures forall k :: 0 <= k < |links| ==> ids[k] == ParseChatId(HrefOf(links[k]))
  {
    seq(|links|, k requires 0 <= k < |links| => ParseChatId(HrefOf(links[k])))
  }

  /** The entry for a link whose chat id is `id`. */
  function ChatFor(link: Node, id: string, location: string): Chat {
    var name := if Trim(link.text) != "" then Trim(link.text) else "Chat " + id;
    Chat(id, id, name, "", 0, HrefOf(link), Contains(location, "/chat/" + id))
  }

  function IdsOf(chats: seq<Chat>): (r: seq<string>)
    ensures |r| == |chats| && forall i :: 0 <= i < |chats| ==> r[i] == chats[i].id
  {
    seq(|chats|, i requires 0 <= i < |chats| => chats[i].id)
  }

  lemma IdsOfSnoc(chats: seq<Chat>, chat: Chat)
    ensures IdsOf(chats + [chat]) == IdsOf(chats) + [chat.id]
  {
  }

  /** Index of the first link whose chat id is `id`, or the number of links when there is none. */
  function FirstWith(ids: seq<Option<string>>, id: string): (k: nat)
    ensures k <= |ids|
    ensures k < |ids| ==> ids[k] == Some(id)
    ensures forall j :: 0 <= j < k ==> ids[j] != Some(id)
  {
    if ids == [] then 0
    else if ids[0] == Some(id) then 0
    else 1 + FirstWith(ids[1..], id)
  }

  /** Extending the links by one: an id first carried by the earlier links keeps its index. */
  lemma FirstWithSnoc(ids: seq<Option<string>>, id: string)
    requires ids != []
    ensures var init := ids[..|ids| - 1];
      && (FirstWith(init, id) < |init| ==> FirstWith(ids, id) == FirstWith(init, id))
      && (FirstWith(init, id) == |init| ==> (FirstWith(ids, id) < |ids| <==> ids[|ids| - 1] == Some(id)))
  {
    var init := ids[..|ids| - 1];
    assert forall j :: 0 <= j < |init| ==> init[j] == ids[j];
  }

  /** The ids present, in document order, with repeats. */
  function PresentIds(ids: seq<Option<string>>): (r: seq<string>)
    ensures forall x :: x in r <==> FirstWith(ids, x) < |ids|
  {
    if ids == [] then []
    else
      var init := ids[..|ids| - 1];
      var last := ids[|ids| - 1];
      assert forall x :: FirstWith(ids, x) < |ids| <==> FirstWith(init, x) < |init| || last == Some(x) by {
        forall x { FirstWithSnoc(ids, x); }
      }
      match last
      case None => PresentIds(init)
      case Some(id) => PresentIds(init) + [id]
  }

  /** The `forEach` over the chat links, whose chat ids are `ids`, keeping the first link of each id. */
  function ChatsOf(links: seq<Node>, ids: seq<Option<string>>, location: string): seq<Chat>
    requires |ids| == |links|
  {
    if links == [] then []
    else
      var init := ChatsOf(links[..|links| - 1], ids[..|ids| - 1], location);
      var last := links[|links| - 1];
      match ids[|ids| - 1]
      case None => init
      case Some(id) => if id in IdsOf(init) then init else init + [ChatFor(last, id, location)]
  }

  /** One more link: its entry is appended when it carries an id not listed yet. */
  lemma ChatsOfSnoc(links: seq<Node>, ids: seq<Option<string>>, location: string, k: nat)
    requires |ids| == |links| && k < |links|
    ensures var chats := ChatsOf(links[..k], ids[..k], location);
      ChatsOf(links[..k + 1], ids[..k + 1], location) ==
        if ids[k].None? || ids[k].value in IdsOf(chats) then chats else chats + [ChatFor(links[k], ids[k].value, location)]
  {
    assert links[..k + 1][..k] == links[..k];
    assert ids[..k + 1][..k] == ids[..k];
  }

  /** The chat ids listed are those of the links, each once, in order of first appearance. */
  lemma {:induction false} ChatIdsAreDistinctLinkIds(links: seq<Node>, ids: seq<Option<string>>, location: string)
    requires |ids| == |links|
    ensures IdsOf(ChatsOf(links, ids, location)) == ResumeUtils.Distinct(PresentIds(ids))
  {
    if links != [] {
      var init, initIds := links[..|links| - 1], ids[..|ids| - 1];
      var last := links[|links| - 1];
      ChatIdsAreDistinctLinkIds(init, initIds, location);
      var xs := PresentIds(initIds);
      match ids[|ids| - 1]
      case None =>
      case Some(id) =>
        assert (xs + [id])[..|xs|] == xs;
        var chats := ChatsOf(init, initIds, location);
        if id !in IdsOf(chats) {
          assert IdsOf(chats + [ChatFor(last, id, location)]) == IdsOf(chats) + [id];
        }
    }
  }

  /** The ids listed are distinct, and they are exactly the chat ids the links carry. */
  lemma ChatListIds(links: seq<Node>, ids: seq<Option<string>>, location: string)
    requires |ids| == |links|
    ensures var listed := IdsOf(ChatsOf(links, ids, location));
      && ResumeUtils.NoDuplicates(listed)
      && forall x :: x in listed <==> FirstWith(ids, x) < |ids|
  {
    ChatIdsAreDistinctLinkIds(links, ids, location);
  }

  /** The last link either adds nothing or appends the entry for its id, which was not listed yet. */
  lemma ChatsOfStep(links: seq<Node>, ids: seq<Option<string>>, location: string)
    requires |ids| == |links| && links != []
    ensures var r0 := ChatsOf(links[..|links| - 1], ids[..|ids| - 1], location);
      var r := ChatsOf(links, ids, location);
      || r == r0
      || (ids[|ids| - 1].Some? && ids[|ids| - 1].value !in IdsOf(r0)
          && r == r0 + [ChatFor(links[|links| - 1], ids[|ids| - 1].value, location)])
  {
  }

  /** Every entry is the one `getChatList` makes from the first link that carries its id. */
  lemma {:induction false} ChatFromFirstLink(links: seq<Node>, ids: seq<Option<string>>, location: string, i: nat)
    requires |ids| == |links| && i < |ChatsOf(links, ids, location)|
    ensures var c := ChatsOf(links, ids, location)[i];
      FirstWith(ids, c.id) < |links| && c == ChatFor(links[FirstWith(ids, c.id)], c.id, location)
  {
    var r := ChatsOf(links, ids, location);
    var init, initIds := links[..|links| - 1], ids[..|ids| - 1];
    var r0 := ChatsOf(init, initIds, location);
    ChatsOfStep(links, ids, location);
    var id := r[i].id;
    FirstWithSnoc(ids, id);
    if i < |r0| {
      ChatFromFirstLink(init, initIds, location, i);
      assert r[i] == r0[i];
      assert links[FirstWith(initIds, id)] == init[FirstWith(initIds, id)];
    } else {
      ChatListIds(init, initIds, location);
    }
  }

  /** The entries' fields: id and chatId agree, the name is never empty, and the chat is active exactly when the page is its chat. */
  lemma ChatFields(link: Node, id: string, location: string)
    ensures var c := ChatFor(link, id, location);
      && c.id == id && c.chatId == id && c.name != "" && c.url == link.resolvedHref
      && (Trim(link.text) == "" ==> c.name == "Chat " + id)
      && (Trim(link.text) != "" ==> c.name == Trim(link.text))
      && (c.isActive <==> Contains(location, "/chat/" + id))
  {
  }

  datatype ChatList = ChatList(success: bool, chats: seq<Chat>)

  /** `getChatList`: the links are visited in document order with a set of the ids already listed. */
  method GetChatList(doc: Node, location: string) returns (r: ChatList)
    ensures var links := QueryAll(doc, ChatLinks); r == ChatList(true, ChatsOf(links, LinkChatIds(links), location))
  {
    var links := QueryAll(doc, ChatLinks);
    ghost var ids := LinkChatIds(links);
    var chats: seq<Chat> := [];
    var seen: set<string> := {};
    var k := 0;
    while k < |links|
      invariant k <= |links|
      invariant chats == ChatsOf(links[..k], ids[..k], location)
      invariant forall x :: x in seen <==> x in IdsOf(chats)
    {
      var link := links[k];
      ChatsOfSnoc(links, ids, location, k);
      var id := ParseChatId(HrefOf(link));
      assert id == ids[k];
      if id.Some? && id.value !in seen {
        seen := seen + {id.value};
        var chat := ChatFor(link, id.value, location);
        IdsOfSnoc(chats, chat);
        chats := chats + [chat];
      }
      k := k + 1;
    }
    assert links[..k] == links && ids[..k] == ids;
    r := ChatList(true, chats);
  }

  // ---------------------------------------------------------------------
  // sendMessageToChat and the message listener

  const MessageInput: string := "textarea[data-qa=\"chatik-new-message-text\"]"
  const SendButton: string := "button[data-qa=\"chatik-do-send-message\"]"

  /** What `sendMessageToChat` does to the page. */
  datatype PageEffect = Navigate(url: string) | TypeMessage(text: string) | ClickSend

  datatype Sent = Sent(outcome: Result<()>, effects: seq<PageEffect>)

  /**
   * `sendMessageToChat`; `doc` is the page the script queries after the
   * navigation step (and its one-second wait, when it navigated).
   */
  function SendMessageToChat(chatId: string, text: string, location: string, doc: Node): (r: Sent)
    ensures chatId == "" ==> r == Sent(Err("chatId required"), [])
    ensures r.outcome.Ok? <==> chatId != "" && Query(doc, MessageInput).Some? && Query(doc, SendButton).Some?
    ensures chatId != "" && Query(doc, MessageInput).None? ==> r.outcome == Err("Message input not found")
    ensures chatId != "" && Query(doc, MessageInput).Some? && Query(doc, SendButton).None? ==>
      r.outcome == Err("Send button not found")
    ensures chatId != "" ==>
      var nav := if Contains(location, "/chat/" + chatId) then [] else [Navigate(ChatUrl(chatId))];
      && |nav| <= |r.effects| && r.effects[..|nav|] == nav
      && (Query(doc, MessageInput).Some? ==> |nav| < |r.effects| && r.effects[|nav|] == TypeMessage(text))
      && (r.outcome.Ok? ==> r.effects == nav + [TypeMessage(text), ClickSend])
      && (r.outcome.Err? ==> ClickSend !in r.effects)
  {
    if chatId == "" then Sent(Err("chatId required"), [])
    else
      var nav := if Contains(location, "/chat/" + chatId) then [] else [Navigate(ChatUrl(chatId))];
      if Query(doc, MessageInput).None? then Sent(Err("Message input not found"), nav)
      else
        var typed := nav + [TypeMessage(text)];
        if Query(doc, SendButton).None? then Sent(Err("Send button not found"), typed)
        else Sent(Ok(()), typed + [ClickSend])
  }

  /** Once navigated to a chat's address, the page counts as that chat's page. */
  lemma NavigationReachesChat(chatId: string)
    ensures Contains(ChatUrl(chatId), "/chat/" + chatId)
  {
    ContainsIff(ChatUrl(chatId), "/chat/" + chatId);
    assert OccursAt(ChatUrl(chatId), "/chat/" + chatId, |Origin|);
  }

  datatype Message = GetChatListMessage | SendMessageMessage(chatId: string, text: string) | OtherMessage(kind: string)

  datatype Reply = ChatListReply(list: ChatList) | SendReply(success: bool, error: Option<string>)

  /** The reply `sendResponse` gets for SEND_MESSAGE: success, or the rejection's message. */
  function SendReplyOf(sent: Sent): (r: Reply)
    ensures r.SendReply?
    ensures r.success <==> sent.outcome.Ok?
    ensures !r.success ==> r.error == Some(sent.outcome.message)
    ensures r.success ==> r.error.None?
  {
    match sent.outcome
    case Ok(_) => SendReply(true, None)
    case Err(m) => SendReply(false, Some(m))
  }

  /** The listener: a reply for the two message types it knows, none for any other. */
  method OnMessage(msg: Message, location: string, doc: Node) returns (reply: Option<Reply>, effects: seq<PageEffect>)
    ensures msg.GetChatListMessage? ==>
      var links := QueryAll(doc, ChatLinks);
      reply == Some(ChatListReply(ChatList(true, ChatsOf(links, LinkChatIds(links), location)))) && effects == []
    ensures msg.SendMessageMessage? ==>
      var sent := SendMessageToChat(msg.chatId, msg.text, location, doc);
      reply == Some(SendReplyOf(sent)) && effects == sent.effects
    ensures msg.OtherMessage? ==> reply.None? && effects == []
  {
    match msg
    case GetChatListMessage =>
      var list := GetChatList(doc, location);
      return Some(ChatListReply(list)), [];
    case SendMessageMessage(chatId, text) =>
      var sent := SendMessageToChat(chatId, text, location, doc);
      return Some(SendReplyOf(sent)), sent.effects;
    case OtherMessage(_) =>
      return None, [];
  }

  /** A failed send is answered with one of the three errors `sendMessageToChat` throws. */
  lemma SendFailureMessages(chatId: string, text: string, location: string, doc: Node)
    ensures var reply := SendReplyOf(SendMessageToChat(chatId, text, location, doc));
      !reply.success ==> reply.error.value in {"chatId required", "Message input not found", "Send button not found"}
  {
  }
}
