/**
 * The conversation state of the chat modal: the message list, the input
 * text, the picked image, the typing indicator and the per-message
 * "show more" flags, with the operations that change them, and the rule
 * that decides how a bot reply is displayed.
 *
 * `Date.now()` is an input: every message reads the clock twice, once for
 * its id and once for its timestamp, and the caller passes both readings
 * for the user message and both for the bot message. The HTTP exchange is an
 * input too, reduced to whether it answered, its status class and its
 * parsed JSON body.
 */
module Chat {
  import opened JsString
  import Json
  import Storage
  import ChatFormat

  datatype Sender = User | Bot

  /** A chat message. The text of a bot message is `None` when the server's
      `reply` field was missing or not a string. */
  datatype Message = Message(id: string, from: Sender, text: Option<string>, ts: nat)

  /** A picked file; only its identity matters here. */
  datatype ImageFile = ImageFile(name: string)

  /** How the message is posted: multipart with the image, or a JSON body. */
  datatype Encoding = Multipart(message: string, image: ImageFile) | JsonBody(body: string)

  datatype ChatRequest = ChatRequest(url: string, authorization: string, encoding: Encoding)

  /** The `fetch` of the chat endpoint as seen by `sendText`: either it
      answered with a JSON body (`ok` is `res.ok`), or the request or
      `res.json()` rejected. */
  datatype ChatResponse = Answered(ok: bool, body: Json.Json) | Unanswered

  /** How the `try` block of `sendText` ends. */
  datatype Exchange = Replied(reply: Option<string>) | Failed

  /** What a call of `sendText` did. */
  datatype SendOutcome = Skipped | NotLoggedIn | Sent(request: ChatRequest)

  const ChatUrl: string := "http://localhost:5000/chat"

  const Fallback: string := "\U{26A0}\U{FE0F} Sorry, something went wrong. Please try again."

  /** Replies longer than this are cut for display. */
  const ShortLimit: nat := 600

  /** `data.reply` read from a successful response. Reading a property of a
      `null` body throws, which the `catch` turns into the fallback; a
      primitive body has no `reply`. */
  function Settle(r: ChatResponse): (e: Exchange)
    ensures e == Failed <==> r.Unanswered? || !r.ok || r.body.Null?
    ensures r.Answered? && r.ok && !r.body.Null? && !r.body.Obj? ==> e == Replied(None)
    ensures r.Answered? && r.ok && r.body.Obj? ==>
      e == Replied(match Json.Lookup(r.body.members, "reply")
                   case Some(Str(t)) => Some(t)
                   case _ => None)
  {
    match r
    case Unanswered => Failed
    case Answered(ok, body) =>
      if !ok then Failed
      else
        match body
        case Null => Failed
        case Obj(ms) =>
          (match Json.Lookup(ms, "reply")
           case Some(Str(t)) => Replied(Some(t))
           case _ => Replied(None))
        case _ => Replied(None)
  }

  /** The two `Date.now()` readings a message is built from: the one its id
      is derived from and the one stored as its timestamp. */
  datatype Instants = Instants(id: nat, ts: nat)

  /** The user message: the id is the first reading in decimal. */
  function UserMessage(text: string, at: Instants): (m: Message)
    ensures m.from == User && m.text == Some(text) && m.ts == at.ts
    ensures AllDigits(m.id) && DigitsValue(m.id) == at.id
  {
    DecimalValue(at.id);
    Message(Decimal(at.id), User, Some(text), at.ts)
  }

  /** The one bot message an exchange adds: the reply with id `at.id + 1`,
      or the fallback text with id `at.id + 2`. */
  function BotMessage(e: Exchange, at: Instants): (m: Message)
    ensures m.from == Bot && m.ts == at.ts
    ensures e.Replied? ==> m.id == Decimal(at.id + 1)
    ensures e.Failed? <==> m.id == Decimal(at.id + 2)
    ensures e.Replied? ==> m.text == e.reply
    ensures e.Failed? ==> m.text == Some(Fallback)
  {
    match e
    case Replied(reply) =>
      DecimalInjective(at.id + 1, at.id + 2);
      Message(Decimal(at.id + 1), Bot, reply, at.ts)
    case Failed => Message(Decimal(at.id + 2), Bot, Some(Fallback), at.ts)
  }

  lemma DecimalInjective(m: nat, n: nat)
    ensures Decimal(m) == Decimal(n) <==> m == n
  {
    DecimalValue(m);
    DecimalValue(n);
  }

  /** The request `sendText` posts: the JSON body `{"message": text}`, or a
      multipart form when an image is attached. */
  function ChatPost(token: string, text: string, image: Option<ImageFile>): ChatRequest {
    var encoding :=
      if image.Some? then Multipart(text, image.value)
      else JsonBody(Json.Stringify(Json.Obj([Json.Member("message", Json.Str(text))])));
    ChatRequest(ChatUrl, "Bearer " + token, encoding)
  }

  /** Whichever encoding is chosen, the server can read the message back. */
  lemma ChatPostCarriesText(token: string, text: string, image: Option<ImageFile>)
    ensures ChatPost(token, text, image).encoding.Multipart? <==> image.Some?
    ensures ChatPost(token, text, image).encoding.JsonBody? ==>
      Json.Parse(ChatPost(token, text, image).encoding.body) ==
        Some(Json.Obj([Json.Member("message", Json.Str(text))]))
    ensures ChatPost(token, text, image).encoding.Multipart? ==>
      ChatPost(token, text, image).encoding.message == text
  {
    Json.RoundTrip(Json.Obj([Json.Member("message", Json.Str(text))]));
  }

  /** `prev ? prev + ' ' + transcript : transcript`. */
  function JoinTranscript(prev: string, transcript: string): (r: string)
    ensures prev == "" ==> r == transcript
    ensures prev != "" ==> |r| == |prev| + 1 + |transcript|
    ensures prev != "" ==> r[..|prev|] == prev && r[|prev|] == ' '
    ensures r[|r| - |transcript|..] == transcript
  {
    if prev != "" then prev + " " + transcript else transcript
  }

  /** `!!expandedIds[id]`. */
  predicate IsExpanded(expanded: map<string, bool>, id: string) {
    id in expanded && expanded[id]
  }

  /** `{ ...prev, [id]: !prev[id] }`. */
  function Toggle(expanded: map<string, bool>, id: string): (r: map<string, bool>)
    ensures IsExpanded(r, id) == !IsExpanded(expanded, id)
    ensures forall other :: other != id ==> (other in r <==> other in expanded)
    ensures forall other :: other != id && other in expanded ==> r[other] == expanded[other]
  {
    expanded[id := !IsExpanded(expanded, id)]
  }

  /** Toggling twice shows what was shown before. */
  lemma ToggleTwice(expanded: map<string, bool>, id: string)
    ensures forall k :: IsExpanded(Toggle(Toggle(expanded, id), id), k) == IsExpanded(expanded, k)
  {
  }

  /** A bot reply is shown cut exactly when it is longer than 600 units and
      not expanded. */
  predicate IsCut(text: string, expanded: bool) {
    |text| > ShortLimit && !expanded
  }

  /** The text the main block of a bot message formats. */
  function ShownText(text: string, expanded: bool): (r: string)
    ensures IsCut(text, expanded) ==> r == text[..ShortLimit] + "..." && |r| == ShortLimit + 3
    ensures !IsCut(text, expanded) ==> r == text
  {
    if IsCut(text, expanded) then text[..ShortLimit] + "..." else text
  }

  /** What the modal renders for a bot message: the main HTML, whether the
      "show more"/"show less" button is there, and the second copy of the
      full reply that an expanded message also gets. */
  datatype BotView = BotView(main: string, toggle: bool, second: Option<string>)

  function ViewBot(text: string, expanded: bool): (v: BotView)
    ensures v.toggle <==> |text| > ShortLimit
    ensures v.second.Some? <==> expanded && text != ""
  {
    BotView(
      ChatFormat.Formatted(ShownText(text, expanded)),
      |text| > ShortLimit,
      if expanded && text != "" then Some(ChatFormat.Formatted(text)) else None)
  }

  /** An expanded reply is rendered twice: once as the main block and once
      more underneath it. */
  lemma ExpandedRenderedTwice(text: string)
    requires text != ""
    ensures ViewBot(text, true).second == Some(ViewBot(text, true).main)
    ensures ViewBot(text, true).main != ""
  {
    ChatFormat.FormattedEmpty(text);
  }

  /** A short reply is shown in full, whatever its flag says. */
  lemma ShortNeverCut(text: string, expanded: bool)
    requires |text| <= ShortLimit
    ensures ViewBot(text, expanded).main == ChatFormat.Formatted(text)
    ensures !ViewBot(text, expanded).toggle
  {
  }

  /** Ids come from the clock: a user message whose id reading is one
      millisecond after a reply's takes the id of that reply. */
  lemma IdsCanCollide(at: nat, userTs: nat, botTs: nat)
    ensures UserMessage("hi", Instants(at + 1, userTs)).id == BotMessage(Replied(Some("hello")), Instants(at, botTs)).id
  {
  }

  class ChatModal {
    var messages: seq<Message>
    var text: string
    var imageFile: Option<ImageFile>
    var typing: bool
    var expandedIds: map<string, bool>

    constructor ()
      ensures messages == [] && text == "" && imageFile == None
      ensures !typing && expandedIds == map[]
    {
      messages := [];
      text := "";
      imageFile := None;
      typing := false;
      expandedIds := map[];
    }

    /** `sendText`: nothing for blank input, an alert and nothing else
        without a `mediro-token`, otherwise the user message, the post and
        exactly one bot message. */
    method SendText(store: Storage.LocalStorage, sentAt: Instants, settledAt: Instants, response: ChatResponse)
      returns (outcome: SendOutcome)
      modifies this
      ensures IsBlank(old(text)) ==> outcome == Skipped && unchanged(this)
      ensures !IsBlank(old(text)) && !Storage.Truthy(Storage.Get(store.items, Storage.TokenKey)) ==>
        outcome == NotLoggedIn && unchanged(this)
      ensures outcome.Sent? <==> !IsBlank(old(text)) && Storage.Truthy(Storage.Get(store.items, Storage.TokenKey))
      ensures outcome.Sent? ==>
        && outcome.request == ChatPost(store.items[Storage.TokenKey], old(text), old(imageFile))
        && messages == old(messages) + [UserMessage(old(text), sentAt), BotMessage(Settle(response), settledAt)]
        && text == ""
        && !typing
        && imageFile == None
        && expandedIds == old(expandedIds)
    {
      if IsBlank(text) {
        return Skipped;
      }
      var token := Storage.Get(store.items, Storage.TokenKey);
      if !Storage.Truthy(token) {
        return NotLoggedIn;
      }
      var userMessage := UserMessage(text, sentAt);
      messages := messages + [userMessage];
      text := "";
      typing := true;
      outcome := Sent(ChatPost(token.value, userMessage.text.value, imageFile));
      var exchange := Settle(response);
      messages := messages + [BotMessage(exchange, settledAt)];
      typing := false;
      imageFile := None;
    }

    /** `toggleExpanded(id)`. */
    method ToggleExpanded(id: string)
      modifies this
      ensures expandedIds == Toggle(old(expandedIds), id)
      ensures messages == old(messages) && text == old(text) && imageFile == old(imageFile)
      ensures typing == old(typing)
    {
      expandedIds := expandedIds[id := !IsExpanded(expandedIds, id)];
    }

    /** `onPickImage`: the first picked file, if any, replaces the image. */
    method OnPickImage(files: seq<ImageFile>)
      modifies this
      ensures |files| > 0 ==> imageFile == Some(files[0])
      ensures |files| == 0 ==> imageFile == old(imageFile)
      ensures messages == old(messages) && text == old(text)
      ensures typing == old(typing) && expandedIds == old(expandedIds)
    {
      if |files| > 0 {
        imageFile := Some(files[0]);
      }
    }

    /** The speech recogniser's result handler. */
    method OnTranscript(transcript: string)
      modifies this
      ensures text == JoinTranscript(old(text), transcript)
      ensures messages == old(messages) && imageFile == old(imageFile)
      ensures typing == old(typing) && expandedIds == old(expandedIds)
    {
      text := JoinTranscript(text, transcript);
    }
  }
}
