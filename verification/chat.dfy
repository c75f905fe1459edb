/** The chat endpoint: given a conversation it either forwards the turns to a
    generative-language service and returns the first text it gets back, or,
    when no API key is configured or the service call fails, picks a canned
    reply by looking for keywords in the latest user message. */
module Chat {
  import opened Text
  import opened Seqs

  /** One entry of the conversation the client sends. The role is kept as the
      client's string: "user", "assistant", "system" or anything else. */
  datatype Message = Message(role: string, content: string)

  // ---------------------------------------------------------------------
  // Canned replies
  // ---------------------------------------------------------------------

  const DefaultText: string := "Hello! I can help you book flights, hotels, and plan your trip. How can I assist you today?"
  const FlightText: string := "I'd be happy to help you book a flight. Could you please tell me your departure city, destination, and travel dates?"
  const HotelText: string := "I can help you find the perfect hotel. What's your destination, check-in and check-out dates, and how many guests will be staying?"
  const PackageText: string := "Looking for a complete travel package? Great choice! Where would you like to go, and when are you planning to travel?"
  const ManaliText: string := "Manali is a beautiful destination! Would you like me to help you find flights to Manali, hotels in the area, or a complete package?"
  const GoaText: string := "Goa is a fantastic choice! Are you interested in beach resorts, budget accommodations, or luxury hotels in Goa?"
  const BookingText: string := "I've found some great options for you. To proceed with the booking, I'll need some details. Would you like to continue?"
  const PaymentText: string := "Your booking has been confirmed! Your confirmation number is TRV-2025-58742. You'll receive a detailed itinerary via email shortly. Thank you for booking with TravelAI!"
  const HindiText: string := "नमस्ते! मैं आपकी यात्रा की योजना बनाने में मदद कर सकता हूं। आप कहां जाना चाहते हैं?"
  const DetailsText: string := "Great choice! To proceed with the booking, I'll need some details:\n\n1. Your full name\n2. Email address\n3. Phone number\n\nOnce you provide these details, I can confirm your booking."
  const ProceedText: string := "Thank you for providing your details. You can now proceed to payment to complete your booking. Would you like to pay now?"

  // ---------------------------------------------------------------------
  // Fallback: latest user message
  // ---------------------------------------------------------------------

  predicate IsUser(m: Message) {
    m.role == "user"
  }

  /** Message `i` is the most recent one with role "user". */
  predicate IsLastUser(history: seq<Message>, i: int) {
    && 0 <= i < |history|
    && IsUser(history[i])
    && forall j :: i < j < |history| ==> !IsUser(history[j])
  }

  /** The text the fallback inspects: the content of the most recent "user"
      message, or "" when there is none. The source searches a reversed copy,
      so the history itself is left as it was; here it is an immutable value. */
  function LastUserText(history: seq<Message>): (r: string)
    ensures (forall i :: 0 <= i < |history| ==> !IsUser(history[i])) ==> r == ""
    ensures forall i :: IsLastUser(history, i) ==> r == history[i].content
  {
    if history == [] then ""
    else if IsUser(history[|history| - 1]) then history[|history| - 1].content
    else
      var r := LastUserText(history[..|history| - 1]);
      LastUserOfPrefix(history);
      r
  }

  /** When the final message is not from the user, the most recent user
      message is the most recent one of the history without it. */
  lemma LastUserOfPrefix(history: seq<Message>)
    requires history != [] && !IsUser(history[|history| - 1])
    ensures forall i :: IsLastUser(history, i) ==> IsLastUser(history[..|history| - 1], i)
  {
  }

  // ---------------------------------------------------------------------
  // Fallback: keyword chain
  // ---------------------------------------------------------------------

  /** The reply families of the keyword table; `General` is the default. */
  datatype Topic = Flight | Hotel | Package | Manali | Goa | Booking | Payment | Hindi | General

  /** The keyword topics in the order they are tried. */
  const Priority: seq<Topic> := [Flight, Hotel, Package, Manali, Goa, Booking, Payment, Hindi]

  function Keywords(t: Topic): (r: seq<string>)
    ensures t == General <==> r == []
    ensures forall j :: 0 <= j < |r| ==> r[j] != ""
  {
    match t
    case Flight => ["flight", "fly"]
    case Hotel => ["hotel", "stay", "room"]
    case Package => ["package", "all inclusive"]
    case Manali => ["manali"]
    case Goa => ["goa"]
    case Booking => ["book", "reserve"]
    case Payment => ["payment", "pay", "completed"]
    case Hindi => ["hindi", "हिंदी"]
    case General => []
  }

  /** Some keyword of `ks` occurs in `text`. */
  predicate AnyIn(text: string, ks: seq<string>) {
    exists k :: 0 <= k < |ks| && Contains(text, ks[k])
  }

  predicate Mentions(text: string, t: Topic) {
    AnyIn(text, Keywords(t))
  }

  /** The keyword test of each topic spelled out. */
  lemma MentionsIff(text: string)
    ensures Mentions(text, Flight) <==> Contains(text, "flight") || Contains(text, "fly")
    ensures Mentions(text, Hotel) <==> Contains(text, "hotel") || Contains(text, "stay") || Contains(text, "room")
    ensures Mentions(text, Package) <==> Contains(text, "package") || Contains(text, "all inclusive")
    ensures Mentions(text, Manali) <==> Contains(text, "manali")
    ensures Mentions(text, Goa) <==> Contains(text, "goa")
    ensures Mentions(text, Booking) <==> Contains(text, "book") || Contains(text, "reserve")
    ensures Mentions(text, Payment) <==> Contains(text, "payment") || Contains(text, "pay") || Contains(text, "completed")
    ensures Mentions(text, Hindi) <==> Contains(text, "hindi") || Contains(text, "हिंदी")
    ensures !Mentions(text, General)
  {
    AnyInPair(text, "flight", "fly");
    AnyInTriple(text, "hotel", "stay", "room");
    AnyInPair(text, "package", "all inclusive");
    AnyInSingle(text, "manali");
    AnyInSingle(text, "goa");
    AnyInPair(text, "book", "reserve");
    AnyInTriple(text, "payment", "pay", "completed");
    AnyInPair(text, "hindi", "हिंदी");
  }

  lemma AnyInSingle(text: string, a: string)
    ensures AnyIn(text, [a]) <==> Contains(text, a)
  {
    assert [a][0] == a;
  }

  lemma AnyInPair(text: string, a: string, b: string)
    ensures AnyIn(text, [a, b]) <==> Contains(text, a) || Contains(text, b)
  {
    var ks := [a, b];
    assert ks[0] == a && ks[1] == b;
    if AnyIn(text, ks) {
      var k :| 0 <= k < |ks| && Contains(text, ks[k]);
      assert k == 0 || k == 1;
    }
  }

  lemma AnyInTriple(text: string, a: string, b: string, c: string)
    ensures AnyIn(text, [a, b, c]) <==> Contains(text, a) || Contains(text, b) || Contains(text, c)
  {
    var ks := [a, b, c];
    assert ks[0] == a && ks[1] == b && ks[2] == c;
    if AnyIn(text, ks) {
      var k :| 0 <= k < |ks| && Contains(text, ks[k]);
      assert k == 0 || k == 1 || k == 2;
    }
  }

  function Rank(t: Topic): nat {
    match t
    case Flight => 0
    case Hotel => 1
    case Package => 2
    case Manali => 3
    case Goa => 4
    case Booking => 5
    case Payment => 6
    case Hindi => 7
    case General => 8
  }

  /** The topic chosen for already lower-cased text: the first topic, in
      priority order, one of whose keywords occurs in the text; `General`
      exactly when none does. */
  function TopicOf(text: string): (r: Topic)
    ensures r == General <==> forall u: Topic :: !Mentions(text, u)
    ensures r != General ==> Mentions(text, r)
    ensures forall u: Topic :: Rank(u) < Rank(r) ==> !Mentions(text, u)
  {
    MentionsIff(text);
    if Contains(text, "flight") || Contains(text, "fly") then Flight
    else if Contains(text, "hotel") || Contains(text, "stay") || Contains(text, "room") then Hotel
    else if Contains(text, "package") || Contains(text, "all inclusive") then Package
    else if Contains(text, "manali") then Manali
    else if Contains(text, "goa") then Goa
    else if Contains(text, "book") || Contains(text, "reserve") then Booking
    else if Contains(text, "payment") || Contains(text, "pay") || Contains(text, "completed") then Payment
    else if Contains(text, "hindi") || Contains(text, "हिंदी") then Hindi
    else General
  }

  /** The replies the fallback can give: one per keyword topic (the
      default included) and the two override prompts. */
  datatype Reply = KeywordReply(topic: Topic) | DetailsPrompt | PaymentPrompt

  /** The text of each reply; none of them is empty. */
  function ReplyText(r: Reply): (s: string)
    ensures |s| > 0
  {
    match r
    case KeywordReply(t) => (
      match t
      case Flight => FlightText
      case Hotel => HotelText
      case Package => PackageText
      case Manali => ManaliText
      case Goa => GoaText
      case Booking => BookingText
      case Payment => PaymentText
      case Hindi => HindiText
      case General => DefaultText)
    case DetailsPrompt => DetailsText
    case PaymentPrompt => ProceedText
  }

  /** The keyword table as an ordered list of (keywords, topic) rules. */
  const Rules: seq<(seq<string>, Topic)> := [
    (Keywords(Flight), Flight), (Keywords(Hotel), Hotel), (Keywords(Package), Package),
    (Keywords(Manali), Manali), (Keywords(Goa), Goa), (Keywords(Booking), Booking),
    (Keywords(Payment), Payment), (Keywords(Hindi), Hindi)]

  /** Reference reading of a rule table: the topic of the first rule with a
      keyword in the text, `General` if none. */
  function FirstMatch(rules: seq<(seq<string>, Topic)>, text: string): Topic {
    if rules == [] then General
    else if AnyIn(text, rules[0].0) then rules[0].1
    else FirstMatch(rules[1..], text)
  }

  /** `Rank` is the position of a keyword topic in the priority order. */
  lemma PriorityRank()
    ensures forall k :: 0 <= k < |Priority| ==> Rank(Priority[k]) == k
    ensures forall t: Topic :: t != General ==> Rank(t) < |Priority| && Priority[Rank(t)] == t
    ensures |Rules| == |Priority|
    ensures forall k :: 0 <= k < |Rules| ==> Rules[k] == (Keywords(Priority[k]), Priority[k])
  {
  }

  /** The hand-written `if`/`else if` chain agrees with the rule table read
      first-match-wins. */
  lemma {:induction false} TopicOfIsFirstMatch(text: string)
    ensures TopicOf(text) == FirstMatch(Rules, text)
  {
    PriorityRank();
    var rs := Rules;
    var k := 0;
    while k < |rs| && !Mentions(text, Priority[k])
      invariant 0 <= k <= |rs|
      invariant FirstMatch(rs[k..], text) == FirstMatch(rs, text)
      invariant forall j :: 0 <= j < k ==> !Mentions(text, Priority[j])
      decreases |rs| - k
    {
      assert rs[k..][1..] == rs[k + 1..];
      k := k + 1;
    }
    if k < |rs| {
      assert FirstMatch(rs[k..], text) == Priority[k];
    } else {
      assert rs[k..] == [];
    }
  }

  predicate HasContactDetails(text: string) {
    Contains(text, "name") && Contains(text, "email") && Contains(text, "phone")
  }

  /** The two overrides applied after the keyword choice, in source order:
      the contact-details check runs last, so it wins over the
      "like to book this" check when both phrases are present. */
  function ApplyOverrides(text: string, chosen: Reply): (r: Reply)
    ensures HasContactDetails(text) ==> r == PaymentPrompt
    ensures !HasContactDetails(text) && Contains(text, "like to book this") ==> r == DetailsPrompt
    ensures !HasContactDetails(text) && !Contains(text, "like to book this") ==> r == chosen
  {
    var afterBookThis := if Contains(text, "like to book this") then DetailsPrompt else chosen;
    if HasContactDetails(text) then PaymentPrompt
    else afterBookThis
  }

  /** The reply the fallback gives for a given (not yet lower-cased) text:
      contact details win, then "like to book this", and otherwise the first
      rule of the priority table with a keyword in the text. */
  function ReplyForText(text: string): (r: Reply)
    ensures HasContactDetails(Lower(text)) ==> r == PaymentPrompt
    ensures !HasContactDetails(Lower(text)) && Contains(Lower(text), "like to book this") ==> r == DetailsPrompt
    ensures !HasContactDetails(Lower(text)) && !Contains(Lower(text), "like to book this") ==>
      r == KeywordReply(FirstMatch(Rules, Lower(text)))
  {
    var lower := Lower(text);
    TopicOfIsFirstMatch(lower);
    ApplyOverrides(lower, KeywordReply(TopicOf(lower)))
  }

  /** The fallback reply for a whole conversation; with no user message at
      all it is the default reply. */
  function FallbackReply(history: seq<Message>): (r: Reply)
    ensures (forall i :: 0 <= i < |history| ==> !IsUser(history[i])) ==> r == KeywordReply(General)
  {
    EmptyTextGetsDefault();
    ReplyForText(LastUserText(history))
  }

  /** The empty lookup text mentions no keyword and triggers no override. */
  lemma EmptyTextGetsDefault()
    ensures ReplyForText("") == KeywordReply(General)
  {
    assert Lower("") == "";
    forall u: Topic ensures !Mentions("", u) {
      var ks := Keywords(u);
      forall j | 0 <= j < |ks| ensures !Contains("", ks[j]) {
        OnlyEmptyInEmpty(ks[j]);
      }
    }
    OnlyEmptyInEmpty("name");
    OnlyEmptyInEmpty("like to book this");
  }

  /** The text of the fallback reply: one of the eleven canned strings, so
      never empty. */
  function FallbackText(history: seq<Message>): (s: string)
    ensures s != ""
  {
    ReplyText(FallbackReply(history))
  }

  /** A text mentioning a flight gets the flight reply, whatever other
      keywords it mentions, unless an override applies. */
  lemma FlightWinsOverOtherKeywords(text: string)
    requires Contains(Lower(text), "flight") || Contains(Lower(text), "fly")
    requires !Contains(Lower(text), "like to book this")
    requires !HasContactDetails(Lower(text))
    ensures ReplyForText(text) == KeywordReply(Flight)
  {
  }

  /** The "like to book this" override replaces whatever keyword reply was
      chosen, unless contact details are also present. */
  lemma BookThisOverridesKeywords(text: string)
    requires Contains(Lower(text), "like to book this")
    requires !HasContactDetails(Lower(text))
    ensures ReplyForText(text) == DetailsPrompt
  {
  }

  lemma LowerFlightToGoa()
    ensures Lower("I want to book a flight to Goa") == "i want to book a flight to goa"
  {
  }

  /** A text without the letter "e" contains neither override phrase's
      "e"-bearing keywords. */
  lemma NoLetterE(t: string)
    requires forall i :: 0 <= i < |t| ==> t[i] != 'e'
    ensures !Contains(t, "like to book this") && !Contains(t, "email")
  {
    if Contains(t, "like to book this") { ContainsHasChars(t, "like to book this", 3); }
    if Contains(t, "email") { ContainsHasChars(t, "email", 0); }
  }

  /** The lower-cased example text is assembled around "flight". */
  lemma FlightToGoaParts()
    ensures "i want to book a " + "flight" + " to goa" == "i want to book a flight to goa"
  {
  }

  /** The keyword facts of the lower-cased example text. */
  lemma FlightToGoaPhrases()
    ensures Contains(Lower("I want to book a flight to Goa"), "flight")
    ensures !Contains(Lower("I want to book a flight to Goa"), "like to book this")
    ensures !Contains(Lower("I want to book a flight to Goa"), "email")
  {
    LowerFlightToGoa();
    FlightToGoaParts();
    OccursInConcat("i want to book a ", "flight", " to goa");
    FlightToGoaHasNoE();
    NoLetterE("i want to book a flight to goa");
  }

  lemma FlightToGoaHasNoE()
    ensures forall i :: 0 <= i < |"i want to book a flight to goa"| ==> "i want to book a flight to goa"[i] != 'e'
  {
    forall i | 0 <= i < 30 ensures "i want to book a flight to goa"[i] != 'e' {}
  }

  /** "flight" is checked before "goa". */
  lemma ExampleFlightToGoa()
    ensures ReplyForText("I want to book a flight to Goa") == KeywordReply(Flight)
  {
    FlightToGoaPhrases();
    FlightWinsOverOtherKeywords("I want to book a flight to Goa");
  }


  lemma LowerBookThisOption()
    ensures Lower("I'd like to book this option") == "i'd like to book this option"
  {
  }

  lemma BookThisOptionPhrases()
    ensures Contains("i'd like to book this option", "like to book this")
    ensures !Contains("i'd like to book this option", "email")
  {
    var t := "i'd like to book this option";
    OccursInConcat("i'd ", "like to book this", " option");
    BookThisOptionSplit();
    NoLetterM(t);
    if Contains(t, "email") { ContainsHasChars(t, "email", 1); }
  }

  lemma BookThisOptionSplit()
    ensures "i'd " + "like to book this" + " option" == "i'd like to book this option"
  {
  }

  lemma NoLetterM(t: string)
    requires t == "i'd like to book this option"
    ensures 'm' !in t
  {
    forall i | 0 <= i < |t| ensures t[i] != 'm' {}
  }

  /** Picking an option yields the details prompt. */
  lemma ExampleBookThisOption()
    ensures ReplyForText("I'd like to book this option") == DetailsPrompt
  {
    LowerBookThisOption();
    BookThisOptionPhrases();
    BookThisOverridesKeywords("I'd like to book this option");
  }

  lemma LowerContactDetails()
    ensures Lower("Name, email and phone") == "name, email and phone"
  {
  }

  /** The example text split around each of the three contact words. */
  lemma ContactDetailsPieces()
    ensures "" + "name" + ", email and phone" == "name, email and phone"
    ensures "name, " + "email" + " and phone" == "name, email and phone"
    ensures "name, email and " + "phone" + "" == "name, email and phone"
  {
  }

  lemma ContactDetailsFound()
    ensures HasContactDetails("name, email and phone")
  {
    ContactDetailsPieces();
    OccursInConcat("", "name", ", email and phone");
    OccursInConcat("name, ", "email", " and phone");
    OccursInConcat("name, email and ", "phone", "");
  }

  /** Sending name, email and phone yields the payment prompt. */
  lemma ExampleContactDetails()
    ensures ReplyForText("Name, email and phone") == PaymentPrompt
  {
    LowerContactDetails();
    ContactDetailsFound();
  }

  // ---------------------------------------------------------------------
  // Live path: request shaping and response extraction
  // ---------------------------------------------------------------------

  /** Speaker of a turn in the generative-language protocol. */
  datatype TurnRole = UserTurn | ModelTurn

  /** One turn of the request, carrying a single text part. */
  datatype Turn = Turn(role: TurnRole, text: string)

  const Acknowledgement: string := "I understand my role as a travel assistant."

  /** The conversation without its "system" messages. */
  function DropSystem(history: seq<Message>): (r: seq<Message>)
    ensures Subsequence(r, history)
    ensures forall i :: 0 <= i < |r| ==> r[i].role != "system" && r[i] in history
    ensures forall i :: 0 <= i < |history| && history[i].role != "system" ==> history[i] in r
    ensures forall m :: multiset(r)[m] == if m.role != "system" then multiset(history)[m] else 0
  {
    Filter((m: Message) => m.role != "system", history)
  }

  /** "assistant" becomes a model turn and every other role a user turn; the
      text is carried over unchanged. */
  function ToTurn(m: Message): (t: Turn)
    ensures t.text == m.content
    ensures t.role == ModelTurn <==> m.role == "assistant"
  {
    Turn(if m.role == "assistant" then ModelTurn else UserTurn, m.content)
  }

  /** The turn list sent to the service. When at least one message survives
      the system filter, two turns are put in front: the user turn with the
      instructions goes in first and the acknowledgement is then put in front
      of it, so the acknowledgement ends up at index 0. */
  function FormatTurns(history: seq<Message>, systemPrompt: string): (r: seq<Turn>)
    ensures DropSystem(history) == [] ==> r == []
    ensures DropSystem(history) != [] ==>
      && |r| == |DropSystem(history)| + 2
      && r[0] == Turn(ModelTurn, Acknowledgement)
      && r[1] == Turn(UserTurn, systemPrompt)
      && forall i :: 2 <= i < |r| ==>
           r[i].text == DropSystem(history)[i - 2].content
           && (r[i].role == ModelTurn <==> DropSystem(history)[i - 2].role == "assistant")
  {
    WithPreamble(DropSystem(history), systemPrompt)
  }

  /** The kept messages as turns, behind the acknowledgement and the
      instructions when there is at least one. */
  function WithPreamble(kept: seq<Message>, systemPrompt: string): (r: seq<Turn>)
    ensures kept == [] ==> r == []
    ensures kept != [] ==>
      && |r| == |kept| + 2
      && r[0] == Turn(ModelTurn, Acknowledgement)
      && r[1] == Turn(UserTurn, systemPrompt)
      && forall i :: 2 <= i < |r| ==>
           r[i].text == kept[i - 2].content && (r[i].role == ModelTurn <==> kept[i - 2].role == "assistant")
  {
    var formatted := seq(|kept|, i requires 0 <= i < |kept| => ToTurn(kept[i]));
    if |formatted| > 0 then
      var withPrompt := [Turn(UserTurn, systemPrompt)] + formatted;
      [Turn(ModelTurn, Acknowledgement)] + withPrompt
    else formatted
  }

  /** The request body: the turns plus the fixed generation settings. */
  datatype GenerateRequest = GenerateRequest(contents: seq<Turn>, temperature: real, maxOutputTokens: int)

  function BuildRequest(history: seq<Message>, systemPrompt: string): (q: GenerateRequest)
    ensures q.temperature == 0.7 && q.maxOutputTokens == 800
    ensures |q.contents| == 0 || |q.contents| >= 3
  {
    GenerateRequest(FormatTurns(history, systemPrompt), 0.7, 800)
  }

  /** The parts of the service's JSON answer the endpoint reads; every level
      may be missing. */
  datatype Part = Part(text: Option<string>)
  datatype Content = Content(parts: Option<seq<Part>>)
  datatype Candidate = Candidate(content: Option<Content>)
  datatype GenerateResponse = GenerateResponse(candidates: Option<seq<Candidate>>)

  /** `candidates[0].content.parts[0].text` exists. */
  predicate HasFirstText(resp: GenerateResponse) {
    && resp.candidates.Some?
    && |resp.candidates.value| > 0
    && resp.candidates.value[0].content.Some?
    && resp.candidates.value[0].content.value.parts.Some?
    && |resp.candidates.value[0].content.value.parts.value| > 0
    && resp.candidates.value[0].content.value.parts.value[0].text.Some?
  }

  function FirstText(resp: GenerateResponse): string
    requires HasFirstText(resp)
  {
    resp.candidates.value[0].content.value.parts.value[0].text.value
  }

  /** The generated text: the first candidate's first part when present,
      otherwise the empty string. */
  function ExtractText(resp: GenerateResponse): (r: string)
    ensures HasFirstText(resp) ==> r == FirstText(resp)
    ensures !HasFirstText(resp) ==> r == ""
  {
    match resp.candidates
    case None => ""
    case Some(cs) =>
      if |cs| == 0 then "" else
      match cs[0].content
      case None => ""
      case Some(c) =>
        match c.parts
        case None => ""
        case Some(ps) =>
          if |ps| == 0 then "" else
          match ps[0].text
          case None => ""
          case Some(t) => t
  }

  /** What the single call to the service can come back with: an HTTP answer
      whose body may or may not parse as JSON, or a transport failure. */
  datatype ProviderOutcome =
    | HttpAnswer(status: int, body: Option<GenerateResponse>)
    | TransportError

  /** The live attempt: the extracted text, or `None` when the call failed in
      any way (non-2xx status, transport error, unparsable body). */
  function LiveReply(outcome: ProviderOutcome): (r: Option<string>)
    ensures r.Some? <==> outcome.HttpAnswer? && 200 <= outcome.status <= 299 && outcome.body.Some?
    ensures r.Some? ==> r.value == ExtractText(outcome.body.value)
  {
    match outcome
    case TransportError => None
    case HttpAnswer(status, body) =>
      if !(200 <= status <= 299) then None
      else
        match body
        case None => None
        case Some(b) => Some(ExtractText(b))
  }

  // ---------------------------------------------------------------------
  // The endpoint
  // ---------------------------------------------------------------------

  /** Where the reply text comes from: the service's text, or a canned reply. */
  datatype Answer = Live(text: string) | Canned(reply: Reply)

  /** The decision the endpoint makes for a conversation. `apiKey` is the
      configured key (a live attempt is made only for a non-empty one) and
      `provider` stands for the single call to the service. */
  function Decide(history: seq<Message>, apiKey: Option<string>, systemPrompt: string,
                  provider: GenerateRequest -> ProviderOutcome): (a: Answer)
    ensures (apiKey.None? || apiKey.value == "") ==> a == Canned(FallbackReply(history))
    ensures apiKey.Some? && apiKey.value != "" ==>
      match LiveReply(provider(BuildRequest(history, systemPrompt)))
      case Some(t) => a == Live(t)
      case None => a == Canned(FallbackReply(history))
  {
    var live :=
      if apiKey.Some? && apiKey.value != "" then LiveReply(provider(BuildRequest(history, systemPrompt)))
      else None;
    match live
    case Some(t) => Live(t)
    case None => Canned(FallbackReply(history))
  }

  /** A failed live call behaves exactly like having no key at all. */
  lemma FailedCallEqualsNoKey(history: seq<Message>, apiKey: Option<string>, systemPrompt: string,
                              provider: GenerateRequest -> ProviderOutcome,
                              noProvider: GenerateRequest -> ProviderOutcome)
    requires LiveReply(provider(BuildRequest(history, systemPrompt))).None?
    ensures Decide(history, apiKey, systemPrompt, provider) == Decide(history, None, systemPrompt, noProvider)
  {
  }

  /** An answer without text is still a success: the live text (empty) is
      used and the keyword fallback is not consulted. */
  lemma EmptyAnswerIsNotFallback(history: seq<Message>, key: string, systemPrompt: string,
                                 provider: GenerateRequest -> ProviderOutcome)
    requires key != ""
    requires provider(BuildRequest(history, systemPrompt)) == HttpAnswer(200, Some(GenerateResponse(Some([]))))
    ensures Decide(history, Some(key), systemPrompt, provider) == Live("")
  {
  }

  /** The text sent back for an answer; a canned answer is never empty. */
  function AnswerText(a: Answer): (s: string)
    ensures a.Live? ==> s == a.text
    ensures a.Canned? ==> s == ReplyText(a.reply) && s != ""
  {
    match a
    case Live(t) => t
    case Canned(r) => ReplyText(r)
  }

  /** The reply message for a conversation: always from the assistant, and
      carrying the canned fallback text whenever no key is configured. */
  function Respond(history: seq<Message>, apiKey: Option<string>, systemPrompt: string,
                   provider: GenerateRequest -> ProviderOutcome): (m: Message)
    ensures m.role == "assistant"
    ensures m.content == AnswerText(Decide(history, apiKey, systemPrompt, provider))
    ensures (apiKey.None? || apiKey.value == "") ==> m.content == FallbackText(history) && m.content != ""
  {
    Message("assistant", AnswerText(Decide(history, apiKey, systemPrompt, provider)))
  }

  /** The HTTP result of the endpoint. */
  datatype HttpResult =
    | Ok(message: Message)
    | ServerError(status: int, error: string)

  const ErrorPrefix: string := "Failed to process request: "

  /** The endpoint as a whole. `body` is the `messages` array of the request,
      `None` when the body cannot be read as one; `reason` stands for the
      runtime's error text in that case. A missing array fails on both paths:
      the live attempt's failure is swallowed, and the fallback then fails
      outside that guard. */
  function HandlePost(body: Option<seq<Message>>, apiKey: Option<string>, systemPrompt: string,
                      provider: GenerateRequest -> ProviderOutcome, reason: string): (r: HttpResult)
    ensures body.None? <==> r.ServerError?
    ensures r.ServerError? ==> r.status == 500 && r.error == ErrorPrefix + reason
    ensures r.Ok? ==> r.message.role == "assistant"
    ensures body.Some? ==> r == Ok(Respond(body.value, apiKey, systemPrompt, provider))
  {
    match body
    case None => ServerError(500, ErrorPrefix + reason)
    case Some(history) => Ok(Respond(history, apiKey, systemPrompt, provider))
  }
}
