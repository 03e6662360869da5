/**
 The timed negotiation against the scripted CFO. The script keeps a flat
 session record (start time, chat history, game-over flag, deal status) and
 mutates it on every rerun; here each rerun is an explicit event and each
 event is a pure step from one session value to the next.
 */
module Negotiation {
  import opened Text
  import Playbook

  datatype Option<T> = None | Some(value: T)

  datatype Role = User | Assistant

  /** One chat record, `{"role": ..., "content": ...}`. */
  datatype Message = Message(role: Role, content: string)

  datatype Sentiment = Good | Bad | Neutral

  /** What the counterparty makes of a prompt before the win check. */
  datatype Verdict = Verdict(reply: string, sentiment: Sentiment)

  /**
   The session store. `startTime` is the clock reading of the last Start, in
   whole seconds, or None before the first Start and after Try Again.
   */
  datatype Session = Session(startTime: Option<int>, history: seq<Message>, gameOver: bool, dealStatus: string)

  /** Length of a game, in seconds. */
  const TimeLimit: nat := 120

  // Fixed lines of the counterparty, written as short pieces so that the
  // verifier can tell them apart character by character.
  const OpeningLine := "I'm listening. " + "Why should I sign this " + "$5,000,000 order today?"
  const InsultReply := "That is insulting. " + "I'm considering rescinding " + "this offer entirely."
  const ValueReply := "I like your focus on value. " + "Tell me more about the " + "implementation timeline."
  const SkepticReply := "I've heard this before. " + "Give me a hard reason to sign."
  const ClosingLine := "You've convinced me. " + "Consider the PO issued. " + "Great negotiating."

  const PendingStatus := "Pending"
  const RescindedStatus := "RESCINDED (Out of Time)"
  const IssuedStatus := "ISSUED ✅"

  /** The session before any button was pressed. */
  const Fresh := Session(None, [], false, PendingStatus)

  /** The reply that goes with each sentiment. */
  function CannedReply(sentiment: Sentiment): string {
    match sentiment
    case Bad => InsultReply
    case Good => ValueReply
    case Neutral => SkepticReply
  }

  /** A status that ends a game: timed out or issued. */
  predicate FinalStatus(status: string) {
    status == RescindedStatus || status == IssuedStatus
  }

  /**
   The game loop runs only while a start time is set and the game is not
   over. Like the script's `if start_time`, a clock reading of 0 counts as
   unset.
   */
  predicate Active(s: Session) {
    s.startTime.Some? && s.startTime.value != 0 && !s.gameOver
  }

  /** The chat box produced a prompt; like the script's walrus test, "" does not count. */
  predicate Submitted(prompt: Option<string>) {
    prompt.Some? && prompt.value != ""
  }

  /** Pressing Start: a new game with only the opening line, the deal status kept as it was. */
  function Start(s: Session, now: int): (r: Session)
    ensures r.startTime == Some(now)
    ensures !r.gameOver
    ensures now != 0 ==> Active(r)
    ensures r.history == [Message(Assistant, OpeningLine)]
    ensures r.dealStatus == s.dealStatus
  {
    s.(startTime := Some(now), gameOver := false, history := [Message(Assistant, OpeningLine)])
  }

  /** Seconds left on the clock after `elapsed` whole seconds. */
  function Remaining(elapsed: nat): (r: nat)
    ensures r <= TimeLimit
    ensures r == 0 <==> elapsed >= TimeLimit
    ensures r > 0 ==> r + elapsed == TimeLimit
  {
    if TimeLimit - elapsed > 0 then TimeLimit - elapsed else 0
  }

  /** First matching rule wins: an insulting discount, then talk of value, then skepticism. */
  function Classify(prompt: string): (v: Verdict)
    ensures v.sentiment == Bad <==> Mentions(prompt, "discount") && Mentions(prompt, "50%")
    ensures v.sentiment == Good <==>
              !(Mentions(prompt, "discount") && Mentions(prompt, "50%"))
              && (Mentions(prompt, "value") || Mentions(prompt, "roi"))
    ensures v.reply == CannedReply(v.sentiment)
  {
    if Mentions(prompt, "discount") && Mentions(prompt, "50%") then
      Verdict(InsultReply, Bad)
    else if Mentions(prompt, "value") || Mentions(prompt, "roi") then
      Verdict(ValueReply, Good)
    else
      Verdict(SkepticReply, Neutral)
  }

  /** The winning condition: the prompt mentions "sign" and was taken well. */
  predicate Won(prompt: string): (b: bool)
    ensures b ==> Classify(prompt) == Verdict(ValueReply, Good)
  {
    Mentions(prompt, "sign") && Classify(prompt).sentiment == Good
  }

  /**
   `after` is `before` followed by the user's prompt and the counterparty's
   answer to it: the closing line exactly when the prompt won, and otherwise
   the reply its classification chose.
   */
  predicate AppendsExchange(before: seq<Message>, after: seq<Message>, prompt: string) {
    && |after| == |before| + 2
    && after[..|before|] == before
    && after[|before|] == Message(User, prompt)
    && after[|before| + 1].role == Assistant
    && (after[|before| + 1].content == ClosingLine <==> Won(prompt))
    && (!Won(prompt) ==> after[|before| + 1].content == Classify(prompt).reply)
  }

  /** Answering one prompt: record it, classify it, apply the win override, record the reply. */
  function Respond(s: Session, prompt: string): (r: Session)
    ensures AppendsExchange(s.history, r.history, prompt)
    ensures r.startTime == s.startTime
    ensures Won(prompt) ==> r.gameOver && r.dealStatus == IssuedStatus
    ensures !Won(prompt) ==> r.gameOver == s.gameOver && r.dealStatus == s.dealStatus
  {
    var asked := s.history + [Message(User, prompt)];
    // The resolved context plays no part in the reply.
    var _ := Playbook.RagContext(prompt);
    var verdict := Classify(prompt);
    if Mentions(prompt, "sign") && verdict.sentiment == Good then
      s.(gameOver := true, dealStatus := IssuedStatus,
         history := asked + [Message(Assistant, ClosingLine)])
    else
      s.(history := asked + [Message(Assistant, verdict.reply)])
  }

  /**
   One rerun of the game loop with `elapsed` seconds on the clock and the
   chat box's content. The time-out check comes first but does not stop a
   prompt of the same rerun from being answered, and a winning prompt then
   overwrites the time-out status.
   */
  function Pass(s: Session, elapsed: nat, prompt: Option<string>): (r: Session)
    ensures !Active(s) ==> r == s
    ensures Active(s) ==> r.startTime == s.startTime
    ensures Active(s) ==> (r.gameOver <==> elapsed >= TimeLimit || (Submitted(prompt) && Won(prompt.value)))
    ensures Active(s) && Submitted(prompt) && Won(prompt.value) ==> r.dealStatus == IssuedStatus
    ensures Active(s) && !(Submitted(prompt) && Won(prompt.value)) ==>
              r.dealStatus == (if elapsed >= TimeLimit then RescindedStatus else s.dealStatus)
    ensures Active(s) && !Submitted(prompt) ==> r.history == s.history
    ensures Active(s) && Submitted(prompt) ==> AppendsExchange(s.history, r.history, prompt.value)
  {
    if !Active(s) then s
    else
      var checked :=
        if Remaining(elapsed) <= 0 then s.(gameOver := true, dealStatus := RescindedStatus) else s;
      if Submitted(prompt) then Respond(checked, prompt.value) else checked
  }

  /** Pressing Try Again, which is offered only once the game is over: forget the start time. */
  function TryAgain(s: Session): (r: Session)
    ensures s.gameOver ==> r.startTime == None && !Active(r)
    ensures !s.gameOver ==> r == s
    ensures r.history == s.history && r.gameOver == s.gameOver && r.dealStatus == s.dealStatus
  {
    if s.gameOver then s.(startTime := None) else s
  }

  /** What can happen between two reruns of the script. */
  datatype Event =
    | StartPressed(now: int)
    | Rerun(elapsed: nat, prompt: Option<string>)
    | TryAgainPressed

  /** One event: a button press or a rerun of the game loop. */
  function Step(s: Session, e: Event): (r: Session)
    ensures e.StartPressed? ==> r.history == [Message(Assistant, OpeningLine)] && !r.gameOver
    ensures e.Rerun? && !Active(s) ==> r == s
    ensures e.Rerun? ==> |s.history| <= |r.history| && r.history[..|s.history|] == s.history
    ensures e.TryAgainPressed? ==> r.history == s.history && r.dealStatus == s.dealStatus
  {
    match e
    case StartPressed(now) => Start(s, now)
    case Rerun(elapsed, prompt) => Pass(s, elapsed, prompt)
    case TryAgainPressed => TryAgain(s)
  }

  /** Replays a sequence of events, first to last. */
  function Run(s: Session, events: seq<Event>): Session
    decreases |events|
  {
    if |events| == 0 then s else Run(Step(s, events[0]), events[1..])
  }

  /** Replaying two sequences one after the other is replaying their concatenation. */
  lemma {:induction false} RunConcat(s: Session, first: seq<Event>, second: seq<Event>)
    ensures Run(s, first + second) == Run(Run(s, first), second)
    decreases |first|
  {
    if |first| > 0 {
      assert (first + second)[1..] == first[1..] + second;
      RunConcat(Step(s, first[0]), first[1..], second);
    } else {
      assert first + second == second;
    }
  }

  /**
   The game loop acts exactly on active sessions: an inactive session is left
   alone by every rerun, and an active one is changed by a rerun at the time
   limit.
   */
  lemma ActiveExactlyWhenLoopActs(s: Session)
    ensures Active(s) <==> Pass(s, TimeLimit, None) != s
  {
  }

  /**
   In an active session a rerun answers the chat box's content exactly when it
   is a non-empty prompt.
   */
  lemma SubmittedExactlyWhenAnswered(s: Session, elapsed: nat, prompt: Option<string>)
    requires Active(s)
    ensures Submitted(prompt) <==> |Pass(s, elapsed, prompt).history| == |s.history| + 2
    ensures !Submitted(prompt) <==> Pass(s, elapsed, prompt).history == s.history
  {
  }

  /**
   The transcript opens with the opening line and then alternates user and
   counterparty records, ending on a counterparty record.
   */
  predicate WellFormedTranscript(h: seq<Message>) {
    |h| == 0
    || (&& h[0] == Message(Assistant, OpeningLine)
        && |h| % 2 == 1
        && forall i :: 1 <= i < |h| ==> h[i].role == (if i % 2 == 1 then User else Assistant))
  }

  /** What every reachable session satisfies. */
  predicate Consistent(s: Session) {
    && WellFormedTranscript(s.history)
    && (s.startTime.Some? ==> |s.history| > 0)
    && (s.gameOver ==> FinalStatus(s.dealStatus))
  }

  /** Appending one answered prompt keeps a non-empty transcript well formed. */
  lemma ExchangeKeepsTranscript(before: seq<Message>, after: seq<Message>, prompt: string)
    requires WellFormedTranscript(before) && |before| > 0
    requires AppendsExchange(before, after, prompt)
    ensures WellFormedTranscript(after)
  {
  }

  lemma StepKeepsConsistent(s: Session, e: Event)
    requires Consistent(s)
    ensures Consistent(Step(s, e))
  {
  }

  /** Every event sequence keeps a consistent session consistent. */
  lemma {:induction false} RunKeepsConsistent(s: Session, events: seq<Event>)
    requires Consistent(s)
    ensures Consistent(Run(s, events))
    decreases |events|
  {
    if |events| > 0 {
      StepKeepsConsistent(s, events[0]);
      RunKeepsConsistent(Step(s, events[0]), events[1..]);
    }
  }

  /**
   Whatever the user does, the end screen never shows a game as over with a
   status other than time-out or issued, and the transcript stays well formed.
   */
  lemma ReachableSessionsConsistent(events: seq<Event>)
    ensures Run(Fresh, events).gameOver ==> FinalStatus(Run(Fresh, events).dealStatus)
    ensures WellFormedTranscript(Run(Fresh, events).history)
  {
    RunKeepsConsistent(Fresh, events);
  }

  /**
   Running out of time does not stop the prompt of the same rerun: it is
   still recorded and answered, and a winning prompt turns the time-out into
   an issued deal.
   */
  lemma TimeoutStillAnswers(s: Session, elapsed: nat, prompt: string)
    requires Active(s) && elapsed >= TimeLimit && prompt != ""
    ensures Pass(s, elapsed, Some(prompt)).gameOver
    ensures AppendsExchange(s.history, Pass(s, elapsed, Some(prompt)).history, prompt)
    ensures Pass(s, elapsed, Some(prompt)).dealStatus == (if Won(prompt) then IssuedStatus else RescindedStatus)
  {
  }

  /** Before the time limit, a rerun without a prompt changes nothing. */
  lemma QuietRerunChangesNothing(s: Session, elapsed: nat)
    requires elapsed < TimeLimit
    ensures Pass(s, elapsed, None) == s
    ensures Pass(s, elapsed, Some("")) == s
  {
  }

  /** A rerun that times out with no prompt ends the game for good: later reruns change nothing. */
  lemma TimeoutIsFinal(s: Session, elapsed: nat, later: nat, prompt: Option<string>)
    requires Active(s) && elapsed >= TimeLimit
    ensures Pass(s, elapsed, None).gameOver
    ensures Pass(s, elapsed, None).dealStatus == RescindedStatus
    ensures Pass(s, elapsed, None).history == s.history
    ensures Pass(Pass(s, elapsed, None), later, prompt) == Pass(s, elapsed, None)
  {
  }

  /** The insulting-discount rule shadows the value rule, so such a prompt can never win. */
  lemma InsultShadowsValue(prompt: string)
    requires Mentions(prompt, "discount") && Mentions(prompt, "50%")
    ensures Classify(prompt) == Verdict(InsultReply, Bad)
    ensures !Won(prompt)
  {
  }

  /** The win condition spelled out over the keywords alone. */
  lemma WonByKeywords(prompt: string)
    ensures Won(prompt) <==>
              && Mentions(prompt, "sign")
              && (Mentions(prompt, "value") || Mentions(prompt, "roi"))
              && !(Mentions(prompt, "discount") && Mentions(prompt, "50%"))
  {
  }

  /** A prompt that is not won leaves the game running and the status as it was. */
  lemma LosingPromptKeepsGame(s: Session, elapsed: nat, prompt: string)
    requires Active(s) && elapsed < TimeLimit && prompt != "" && !Won(prompt)
    ensures !Pass(s, elapsed, Some(prompt)).gameOver
    ensures Pass(s, elapsed, Some(prompt)).dealStatus == s.dealStatus
    ensures Active(Pass(s, elapsed, Some(prompt)))
  {
  }

  /** After Try Again nothing happens until the next Start. */
  lemma TryAgainWaitsForStart(s: Session, elapsed: nat, prompt: Option<string>)
    requires s.gameOver
    ensures Pass(TryAgain(s), elapsed, prompt) == TryAgain(s)
  {
  }

  /** Start does not reset the status: a new game can run under the previous game's verdict. */
  lemma StatusSurvivesRestart(s: Session, now: int)
    requires s.gameOver && s.dealStatus == IssuedStatus
    ensures !Start(TryAgain(s), now).gameOver
    ensures Start(TryAgain(s), now).dealStatus == IssuedStatus
  {
  }

  // Worked prompts. Keyword tests are raw substring tests, so "signature"
  // and "design" both mention "sign".

  /** A half-price demand is an insult. */
  lemma HalfPriceDemandIsInsult(prompt: string)
    requires prompt == "I want a 50% discount"
    ensures Classify(prompt) == Verdict(InsultReply, Bad)
  {
    MentionsAt(prompt, "50%", 9);
    MentionsAt(prompt, "discount", 13);
  }

  /** A half-price demand leaves the game running and the status as it was. */
  lemma HalfPriceDemandKeepsGame(s: Session, elapsed: nat, prompt: string)
    requires Active(s) && elapsed < TimeLimit
    requires prompt == "I want a 50% discount"
    ensures !Pass(s, elapsed, Some(prompt)).gameOver
    ensures Pass(s, elapsed, Some(prompt)).dealStatus == s.dealStatus
  {
    HalfPriceDemandIsInsult(prompt);
  }

  /** Talking return on investment and offering to sign closes the deal. */
  lemma RoiAndSignWins(s: Session, elapsed: nat, prompt: string)
    requires Active(s) && elapsed < TimeLimit
    requires prompt == "I believe in the ROI " + "and I'm ready to sign"
    ensures Won(prompt)
    ensures Pass(s, elapsed, Some(prompt)).gameOver
    ensures Pass(s, elapsed, Some(prompt)).dealStatus == IssuedStatus
  {
    MentionsAt(prompt, "roi", 17);
    MentionsAt(prompt, "sign", 38);
    NotMentionedWithout(prompt, "50%", 2);
  }

  /** Declining to sign yet still wins: "signature" mentions "sign". */
  lemma SignatureMentionsSign(prompt: string)
    requires prompt == "let's talk value, " + "but no signature yet"
    ensures Won(prompt)
  {
    MentionsAt(prompt, "value", 11);
    MentionsAt(prompt, "sign", 25);
    NotMentionedWithout(prompt, "50%", 2);
  }
}
