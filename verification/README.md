# The $10M Purchase Order Challenge, modelled in Dafny

The app is a timed negotiation game. The player has 120 seconds to talk a
scripted "AI CFO" into issuing a purchase order. Every chat turn is
classified by keyword rules. A mock retrieval step looks advisory text up in
a three-entry sales playbook.

This project models that logic as pure Dafny functions over an immutable
session record:

- `text.dfy` (module `Text`) holds the two string primitives the script
  uses. `Lower` is ASCII case folding. `Contains` is the substring test
  `keyword in text`, proved equal to its reference meaning (some index where
  the keyword starts). `Mentions` combines them.
- `playbook.dfy` (module `Playbook`) holds the `SALES_PLAYBOOK` table and
  `get_rag_context`.
- `negotiation.dfy` (module `Negotiation`) holds the session store
  (`start_time`, `chat_history`, `game_over`, `deal_status`) and the
  buttons and reruns that change it:
  - `Start` is the Start Negotiation button.
  - `Pass` is one rerun of the game loop, which calls `Respond` when the
    chat box holds a prompt.
  - `TryAgain` is the Try Again button.
  - `Step` and `Run` replay a sequence of these events.

The script reruns top to bottom on every interaction. The model replaces
that with explicit events. The wall clock becomes a parameter: the whole
seconds elapsed since Start. The chat box becomes an `Option<string>`.

Three behaviours of the script are easy to misread:

- A rerun that finds the time is up still answers the prompt submitted in
  that rerun. A winning prompt then replaces the time-out status with the
  issued status (`TimeoutStillAnswers`).
- Start does not reset `deal_status`, and Try Again only clears the start
  time. So a running game can still show the previous game's final status,
  and "status is Pending exactly when the game is not over" does not hold
  (`StatusSurvivesRestart`). Only one direction
  holds: a game that is over always shows a final status
  (`ReachableSessionsConsistent`).
- Keyword tests are raw substring tests. "let's talk value, but no
  signature yet" therefore wins, because "signature" contains "sign"
  (`SignatureMentionsSign`).
- Python truthiness is kept in two places:
  - A start time equal to 0 counts as unset, as in `if start_time`.
  - An empty prompt is not answered, as in `if prompt := ...`.

## Model

| member | source | states |
|---|---|---|
| `Text.Lower` | app.py:18-20 | Case folding keeps the length, maps every ASCII capital to its small letter and leaves every other character alone |
| `Text.Contains` | app.py:18-20 | The substring test is true exactly when the keyword occurs at some index of the text, including the empty keyword |
| `Text.Mentions` | app.py:18-20 | `keyword in text.lower()` is true exactly when the keyword occurs at some index of the folded text |
| `Text.MentionsIgnoresCase` | app.py:18-20 | A keyword test gives the same answer on the text and on its lower-cased form |
| `Playbook.Advice` | app.py:8-12 | The playbook maps its three keys one-to-one onto the three advisory texts: each text is stored under exactly one key |
| `Playbook.RagContext` | app.py:15-22 | The context is never empty. It is objections then deal terms when both money and schedule are raised, one of them alone when only that one is raised, and the tactics text when neither is |
| `Playbook.RagContextSelects` | app.py:17-22 | The context starts with the objections text iff "budget" or "price" is mentioned. It ends with the deal-terms text iff "when" or "delivery" is mentioned. It equals the tactics text iff none of the four is mentioned |
| `Playbook.RagContextIgnoresCase` | app.py:15-22 | The resolver gives the same context for an input and its lower-cased form |
| `Negotiation.Start` | app.py:46-55 | Start records the start time, always clears the game-over flag and sets the history to exactly the opening line. It makes the game active when the clock reading is non-zero and leaves the deal status unchanged |
| `Negotiation.ActiveExactlyWhenLoopActs` | app.py:58-66 | `Active` is the loop's guard: a session is active exactly when a rerun at the time limit changes it, so an inactive session is left alone |
| `Negotiation.SubmittedExactlyWhenAnswered` | app.py:74-103 | `Submitted` is the chat box's truthiness test: in an active session a rerun adds an exchange exactly when the prompt is present and non-empty, and otherwise leaves the history as it was |
| `Negotiation.Remaining` | app.py:59-60 | The seconds remaining lie in [0, 120]. They are 0 exactly when 120 or more seconds have elapsed, and otherwise they add up with the elapsed seconds to 120 |
| `Negotiation.Classify` | app.py:85-95 | Sentiment is bad iff the prompt mentions "discount" and "50%". It is good iff that is not so and it mentions "value" or "roi". The reply is the one fixed for the sentiment |
| `Negotiation.Won` | app.py:97-101 | A winning prompt is one the classification took as talk of value: its sentiment is good and its pre-override reply is the value line |
| `Negotiation.Respond` | app.py:74-105 | An answered prompt appends exactly the user record and then an assistant record, leaving the earlier history intact. The reply is the closing line iff the prompt won. A win ends the game with status issued; any other prompt leaves game-over and status unchanged |
| `Negotiation.Pass` | app.py:58-108 | A rerun of an inactive session changes nothing. In an active one the game ends iff 120 seconds have elapsed or a submitted prompt wins. The status becomes issued on a win, otherwise rescinded on time-out, otherwise stays. History grows by one exchange iff a prompt was submitted |
| `Negotiation.TryAgain` | app.py:111-121 | Try Again, offered only when the game is over, clears the start time and so makes the session inactive. History, game-over and status are unchanged |
| `Negotiation.Step` | app.py:46-121 | Start always resets the transcript to the opening line and clears game-over. A rerun of an inactive session is a no-op, and every rerun keeps the existing history as a prefix. Try Again keeps history and status |
| `Negotiation.RunConcat` | app.py:34-121 | Replaying two event sequences one after the other is the same as replaying their concatenation |
| `Negotiation.ExchangeKeepsTranscript` | app.py:76-103 | Appending an answered prompt to a well-formed transcript keeps it well formed: opening line first, then alternating user and assistant records |
| `Negotiation.StepKeepsConsistent` | app.py:46-121 | Each event (Start, a rerun, Try Again) preserves three facts: a well-formed transcript, a non-empty history once started, and a final status whenever the game is over |
| `Negotiation.RunKeepsConsistent` | app.py:46-121 | Any sequence of events preserves the same three facts |
| `Negotiation.ReachableSessionsConsistent` | app.py:34-121 | From the initial session, any sequence of events leaves a well-formed transcript. A session whose game is over shows "RESCINDED (Out of Time)" or "ISSUED ✅", never "Pending" |
| `Negotiation.TimeoutStillAnswers` | app.py:64-103 | A rerun at 120 seconds or later ends the game and still records and answers its prompt. The status is issued if the prompt won and rescinded otherwise |
| `Negotiation.QuietRerunChangesNothing` | app.py:58-74 | Before the time limit, a rerun with an empty or missing prompt leaves the session exactly as it was |
| `Negotiation.TimeoutIsFinal` | app.py:58-66 | A time-out rerun without a prompt ends the game with status rescinded and history unchanged. Every later rerun leaves that session as it is |
| `Negotiation.InsultShadowsValue` | app.py:85-98 | A prompt mentioning both "discount" and "50%" always gets the insulting reply with bad sentiment, whatever else it says, and so never wins |
| `Negotiation.WonByKeywords` | app.py:85-98 | A prompt wins iff it mentions "sign", mentions "value" or "roi", and does not mention both "discount" and "50%" |
| `Negotiation.LosingPromptKeepsGame` | app.py:85-103 | Before the time limit, a prompt that does not win leaves the game active with the status unchanged |
| `Negotiation.TryAgainWaitsForStart` | app.py:119-121 | After Try Again every rerun is a no-op until the next Start, because the game loop needs a start time |
| `Negotiation.StatusSurvivesRestart` | app.py:46-54 | Try Again followed by Start gives a running game that still carries the previous game's "ISSUED ✅" status |
| `Negotiation.HalfPriceDemandIsInsult` | app.py:85-89 | "I want a 50% discount" is classified as the insult with bad sentiment |
| `Negotiation.HalfPriceDemandKeepsGame` | app.py:85-103 | Before the time limit, "I want a 50% discount" leaves the game running and the status unchanged |
| `Negotiation.RoiAndSignWins` | app.py:90-101 | "I believe in the ROI and I'm ready to sign" wins. Before the time limit it ends the game with status issued |
| `Negotiation.SignatureMentionsSign` | app.py:90-101 | "let's talk value, but no signature yet" wins, because "signature" contains "sign" |

## Left out

- Streamlit rendering and control flow: page setup, title, markdown, the sidebar timer metric, chat bubbles, error and success banners, balloons and `st.rerun`. Each rerun is an explicit `Event` instead.
- The end screen's choice between success and error styling (app.py:113-117). It is rendering. `ReachableSessionsConsistent` states which statuses it can meet.
- The wall clock `time.time()` and the float-to-int truncation `int(elapsed)`. The elapsed time is a whole number of seconds given as a parameter, and the start time is a whole-second clock reading.
- `Text.Lower`: folds ASCII letters only, not Python's full Unicode `str.lower()`, which can change the length and can turn a non-ASCII capital into ASCII letters. For example `"ROİ".lower()` is "roi" followed by a combining dot, so the script finds "roi" in it and the prompt "ROİ and sign" wins in the script but not in the model, which finds no "roi" in it.
- The retrieved context is computed in `Respond` and discarded, as in the script. No reply depends on it.
- The unused `random` import.
- A "too aggressive, deal rescinded" outcome. It appears only in the page's prose (app.py:30). No code sets it, and neither does the model.
