/**
 * The ReAct reasoning loop of `app.py`: the conversation handed to the chat model is the system
 * prompt, a window of the session history and the new prompt; each reply is decoded by its
 * markers (`检索:` / `检索：` asks for a search, `Final Answer` concludes), a no-repeat guard
 * keeps the same keyword from being searched twice in a row, and after at most
 * `MAX_REASONING_STEPS` replies one answer is chosen and appended to the session.
 */
module ReasoningLoop {
  import opened Text
  import Config

  datatype Role = System | User | Assistant

  /** One chat message, `{"role": ..., "content": ...}`. */
  datatype Message = Message(role: Role, content: string)

  const Greeting: string := "你好，我是你的医学助手。已学知识请看左侧列表。"
  const RepeatObservation: string := "Observation: 已搜索过该词，无新信息。请尝试总结。"
  const NoConclusionText: string := "抱歉，我未查到相关资料，未能得出明确结论。"

  // ---------------------------------------------------------------------------------------------
  // The conversation window
  // ---------------------------------------------------------------------------------------------

  /** How many session messages the window keeps: two per remembered turn. */
  const HistoryLength: nat := 2 * Config.ContextHistoryTurns

  /**
   * The messages sent to the model for `prompt`: the system prompt `system`, the last
   * `2 * CONTEXT_HISTORY_TURNS` messages of the session (all of them when there are fewer), and
   * the prompt as a user message. The app passes `SYSTEM_PROMPT` (`Config.SystemPrompt`) as
   * `system`; it is a parameter so that reasoning about the window does not carry its text.
   */
  function Window(system: string, session: seq<Message>, prompt: string): (r: seq<Message>)
    ensures |r| == Min(|session|, HistoryLength) + 2
    ensures r[0] == Message(System, system)
    ensures r[|r| - 1] == Message(User, prompt)
    ensures r[1..|r| - 1] == session[|session| - Min(|session|, HistoryLength)..]
  {
    [Message(System, system)] + session[Max(0, |session| - HistoryLength)..]
      + [Message(User, prompt)]
  }

  /**
   * The prompt is appended to the session before the window is taken, so the model sees it
   * twice: as the last message of the history and as the final message.
   */
  lemma PromptSentTwice(system: string, session: seq<Message>, prompt: string)
    ensures var w := Window(system, session + [Message(User, prompt)], prompt);
      w[|w| - 2] == Message(User, prompt) && w[|w| - 1] == Message(User, prompt)
  {
    var s := session + [Message(User, prompt)];
    var w := Window(system, s, prompt);
    assert w[1..|w| - 1] == s[|s| - Min(|s|, HistoryLength)..];
    assert w[|w| - 2] == w[1..|w| - 1][|w| - 3];
  }

  // ---------------------------------------------------------------------------------------------
  // Decoding a reply
  // ---------------------------------------------------------------------------------------------

  /** The reply asks for a search: it holds `检索:` or `检索：`. */
  predicate AsksRetrieval(c: string)
  {
    Contains(c, "检索:") || Contains(c, "检索：")
  }

  /** The marker the keyword is read after: the ASCII-colon form whenever it occurs. */
  function Splitter(c: string): string
  {
    if Contains(c, "检索:") then "检索:" else "检索："
  }

  /**
   * The search keyword: the text after the LAST occurrence of the splitter, up to the first line
   * break, stripped. It is a single line without surrounding whitespace.
   */
  function Keyword(c: string): (r: string)
    ensures '\n' !in r
    ensures r != [] ==> !IsSpace(r[0]) && !IsSpace(r[|r| - 1])
  {
    var line := BeforeFirst(AfterLast(c, Splitter(c)), "\n");
    ContainsChar(line, '\n');
    Strip(line)
  }

  /**
   * A reply asking for a search yields the keyword behind the last occurrence of its splitter:
   * the splitter occurs at some index `i` and not after it, and the keyword is the first line of
   * what follows, stripped.
   */
  lemma KeywordAfterLastSplitter(c: string)
    requires AsksRetrieval(c)
    ensures var sp := Splitter(c);
      exists i :: (OccursAt(c, sp, i) && !Contains(c[i + |sp|..], sp)
                   && Keyword(c) == Strip(BeforeFirst(c[i + |sp|..], "\n")))
  {
    var sp := Splitter(c);
    var tail := AfterLast(c, sp);
    var i := |c| - |tail| - |sp|;
    assert c[i + |sp|..] == tail;
  }

  /** The reply concludes: it holds `Final Answer`. */
  predicate HasFinalAnswer(c: string)
  {
    Contains(c, "Final Answer")
  }

  /**
   * The concluding answer: the text after the LAST `Final Answer`, with leading `:` removed,
   * then leading `：`, then surrounding whitespace.
   */
  function FinalAnswerText(c: string): (r: string)
    ensures r != [] ==> !IsSpace(r[0]) && !IsSpace(r[|r| - 1])
    ensures forall ch :: ch in r ==> ch in c
  {
    var tail := AfterLast(c, "Final Answer");
    DropKeepsElements(c, |c| - |tail|);
    var t1 := LStrip(tail, Some(':'));
    DropKeepsElements(tail, |tail| - |t1|);
    var t2 := LStrip(t1, Some('：'));
    DropKeepsElements(t1, |t1| - |t2|);
    Strip(t2)
  }

  /**
   * A concluding reply yields the text behind its last `Final Answer`: the marker occurs at some
   * index `i` and not after it, and the answer is what follows with leading `:` removed, then
   * leading `：`, then surrounding whitespace.
   */
  lemma FinalAnswerAfterLastMarker(c: string)
    requires HasFinalAnswer(c)
    ensures var m := "Final Answer";
      exists i :: (OccursAt(c, m, i) && !Contains(c[i + |m|..], m)
                   && FinalAnswerText(c) == Strip(LStrip(LStrip(c[i + |m|..], Some(':')), Some('：'))))
  {
    var m := "Final Answer";
    var tail := AfterLast(c, m);
    var i := |c| - |tail| - |m|;
    assert c[i + |m|..] == tail;
  }

  /** A reply that answers without retrieving: no `检索` at all, and longer than 20 characters. */
  predicate DirectAnswer(c: string)
  {
    !Contains(c, "检索") && |c| > 20
  }

  // ---------------------------------------------------------------------------------------------
  // One step and the whole loop
  // ---------------------------------------------------------------------------------------------

  /** How a step ends the loop, if it does. */
  datatype Exit = Continue | ByFinalAnswer(text: string) | ByDirectAnswer

  /** The loop's state after a step: the conversation, `last_action`, and how the step ended. */
  datatype StepResult = StepResult(messages: seq<Message>, lastAction: string, searched: Option<string>,
                                   exit: Exit)

  /** Where the step sends the loop, given the reply `c`. */
  function ExitOf(c: string): Exit
  {
    if HasFinalAnswer(c) then ByFinalAnswer(FinalAnswerText(c))
    else if DirectAnswer(c) then ByDirectAnswer
    else Continue
  }

  /** The observation fed back to the model for a search result. */
  function Observation(result: string): string
  {
    "Observation: " + result
  }

  /** The keyword the reply asks to search, if it asks for a search at all. */
  function Request(c: string): Option<string>
  {
    if AsksRetrieval(c) then Some(Keyword(c)) else None
  }

  /**
   * One step on the reply `c`, decoded into its search request and its exit. The reply is
   * appended to the conversation first. A request with a new keyword searches it once, appends
   * its observation and remembers it; one repeating `last_action` appends the fixed repeat
   * observation and searches nothing. The exit is decided after the retrieval, so a reply may
   * both search and conclude.
   */
  function StepOn(messages: seq<Message>, lastAction: string, c: string, request: Option<string>,
                  exit: Exit, search: string -> string): StepResult
  {
    var withReply := messages + [Message(Assistant, c)];
    match request
    case None => StepResult(withReply, lastAction, None, exit)
    case Some(keyword) =>
      if keyword == lastAction then
        StepResult(withReply + [Message(User, RepeatObservation)], lastAction, None, exit)
      else
        StepResult(withReply + [Message(User, Observation(search(keyword)))], keyword, request, exit)
  }

  /**
   * A step always appends the reply first and keeps the decoded exit; without a request nothing
   * else happens, a repeated keyword gets the repeat observation and no search, and a new keyword
   * is searched once, observed and remembered as `last_action`.
   */
  lemma StepOnMeaning(messages: seq<Message>, lastAction: string, c: string, request: Option<string>,
                      exit: Exit, search: string -> string)
    ensures var r := StepOn(messages, lastAction, c, request, exit, search);
      && |r.messages| >= |messages| + 1
      && r.messages[..|messages| + 1] == messages + [Message(Assistant, c)]
      && r.exit == exit
    ensures var r := StepOn(messages, lastAction, c, request, exit, search);
      request == None ==>
        r.messages == messages + [Message(Assistant, c)] && r.lastAction == lastAction && r.searched == None
    ensures var r := StepOn(messages, lastAction, c, request, exit, search);
      request == Some(lastAction) ==>
        && r.messages == messages + [Message(Assistant, c), Message(User, RepeatObservation)]
        && r.lastAction == lastAction && r.searched == None
    ensures var r := StepOn(messages, lastAction, c, request, exit, search);
      request.Some? && request.value != lastAction ==>
        && r.messages == messages + [Message(Assistant, c), Message(User, Observation(search(request.value)))]
        && r.lastAction == request.value && r.searched == request
  {
    var withReply := messages + [Message(Assistant, c)];
    assert withReply[..|messages| + 1] == withReply;
    if request.Some? {
      var obs := if request.value == lastAction then RepeatObservation else Observation(search(request.value));
      assert (withReply + [Message(User, obs)])[..|messages| + 1] == withReply;
      assert withReply + [Message(User, obs)] == messages + [Message(Assistant, c), Message(User, obs)];
    }
  }

  /** What a reply asks of the loop: the keyword to search, if any, and how the step ends. */
  datatype Decision = Decision(request: Option<string>, exit: Exit)

  /** The decoding `app.py` applies to every reply. */
  function Decode(c: string): Decision
  {
    Decision(Request(c), ExitOf(c))
  }

  /** The keywords searched so far, extended by the step's search if it made one. */
  function Record(searches: seq<string>, searched: Option<string>): seq<string>
  {
    if searched.Some? then searches + [searched.value] else searches
  }

  /** How the loop ended: a concluding step, or the step budget used up. */
  datatype Ending = Concluded(exit: Exit) | Exhausted

  /**
   * The loop's outcome: the conversation, `last_action`, the keywords searched (one search call
   * each), the number of chat calls, the last reply, and how the loop ended.
   */
  datatype Trace = Trace(messages: seq<Message>, lastAction: string, searches: seq<string>, calls: nat,
                         reply: string, ending: Ending)

  /**
   * The remaining `fuel` steps of the loop from the given state. The chat model is the oracle
   * `chat`, which answers the whole conversation so far; `decode` reads each reply (the app
   * always uses `Decode`) and `search` is the retrieval tool.
   */
  function Run(messages: seq<Message>, lastAction: string, searches: seq<string>, calls: nat,
               reply: string, fuel: nat, chat: seq<Message> -> string, decode: string -> Decision,
               search: string -> string): Trace
    decreases fuel, 1
  {
    if fuel == 0 then Trace(messages, lastAction, searches, calls, reply, Exhausted)
    else
      var c := chat(messages);
      var d := decode(c);
      After(StepOn(messages, lastAction, c, d.request, d.exit, search), searches, calls + 1, c, fuel - 1,
            chat, decode, search)
  }

  /** The loop after a step `r` on the reply `c`: it stops when the step concluded, else runs on. */
  function After(r: StepResult, searches: seq<string>, calls: nat, c: string, fuel: nat,
                 chat: seq<Message> -> string, decode: string -> Decision, search: string -> string): Trace
    decreases fuel, 2
  {
    var searched := Record(searches, r.searched);
    if r.exit != Continue then Trace(r.messages, r.lastAction, searched, calls, c, Concluded(r.exit))
    else Run(r.messages, r.lastAction, searched, calls, c, fuel, chat, decode, search)
  }

  /** The loop as `app.py` starts it: the window, no `last_action`, `MAX_REASONING_STEPS` steps. */
  function Reasoning(system: string, session: seq<Message>, prompt: string, chat: seq<Message> -> string,
      search: string -> string): Trace
  {
    Run(Window(system, session, prompt), "", [], 0, "", Config.MaxReasoningSteps, chat, Decode, search)
  }

  /**
   * Each remaining step makes one chat call: at least one when any step is left, at most `fuel`,
   * and exactly `fuel` when the budget runs out.
   */
  lemma {:induction false} RunCalls(messages: seq<Message>, lastAction: string, searches: seq<string>,
                                    calls: nat, reply: string, fuel: nat, chat: seq<Message> -> string,
                                    decode: string -> Decision, search: string -> string)
    ensures var t := Run(messages, lastAction, searches, calls, reply, fuel, chat, decode, search);
      && calls <= t.calls <= calls + fuel
      && (fuel >= 1 ==> t.calls >= calls + 1)
      && (t.ending.Exhausted? ==> t.calls == calls + fuel)
    decreases fuel, 1
  {
    if fuel > 0 {
      var c := chat(messages);
      var d := decode(c);
      AfterCalls(StepOn(messages, lastAction, c, d.request, d.exit, search), searches, calls + 1, c, fuel - 1,
                 chat, decode, search);
    }
  }

  lemma {:induction false} AfterCalls(r: StepResult, searches: seq<string>, calls: nat, c: string, fuel: nat,
                                      chat: seq<Message> -> string, decode: string -> Decision,
                                      search: string -> string)
    ensures var t := After(r, searches, calls, c, fuel, chat, decode, search);
      && calls <= t.calls <= calls + fuel
      && (t.ending.Exhausted? ==> t.calls == calls + fuel)
    decreases fuel, 2
  {
    if r.exit == Continue {
      RunCalls(r.messages, r.lastAction, Record(searches, r.searched), calls, c, fuel, chat, decode, search);
    }
  }

  /** At least one and at most `MAX_REASONING_STEPS` chat calls. */
  lemma CallsBounded(system: string, session: seq<Message>, prompt: string, chat: seq<Message> -> string,
      search: string -> string)
    ensures 1 <= Reasoning(system, session, prompt, chat, search).calls <= Config.MaxReasoningSteps
  {
    RunCalls(Window(system, session, prompt), "", [], 0, "", Config.MaxReasoningSteps, chat, Decode, search);
  }

  // ---------------------------------------------------------------------------------------------
  // The no-repeat guard
  // ---------------------------------------------------------------------------------------------

  /**
   * What the guard keeps: `last_action` is the last keyword searched (`""` before any search),
   * no keyword is searched twice in a row, and the first keyword searched is not empty.
   */
  predicate Guarded(searches: seq<string>, lastAction: string)
  {
    && (searches == [] ==> lastAction == "")
    && (searches != [] ==> lastAction == searches[|searches| - 1] && searches[0] != "")
    && forall i :: 0 <= i < |searches| - 1 ==> searches[i] != searches[i + 1]
  }

  /** Searching a keyword other than `last_action` keeps the guard's invariant. */
  lemma GuardedSnoc(searches: seq<string>, lastAction: string, keyword: string)
    requires Guarded(searches, lastAction) && keyword != lastAction
    ensures Guarded(searches + [keyword], keyword)
  {
    var s := searches + [keyword];
    forall i | 0 <= i < |s| - 1 ensures s[i] != s[i + 1] {
      if i < |searches| - 1 {
        assert s[i] == searches[i] && s[i + 1] == searches[i + 1];
      }
    }
    if searches != [] {
      assert s[0] == searches[0];
    }
  }

  lemma StepGuarded(messages: seq<Message>, lastAction: string, searches: seq<string>, c: string,
                    request: Option<string>, exit: Exit, search: string -> string)
    requires Guarded(searches, lastAction)
    ensures var r := StepOn(messages, lastAction, c, request, exit, search);
      Guarded(Record(searches, r.searched), r.lastAction)
  {
    if request.Some? && request.value != lastAction {
      GuardedSnoc(searches, lastAction, request.value);
    }
  }

  lemma {:induction false} RunGuarded(messages: seq<Message>, lastAction: string, searches: seq<string>,
                                      calls: nat, reply: string, fuel: nat, chat: seq<Message> -> string,
                                      decode: string -> Decision, search: string -> string)
    requires Guarded(searches, lastAction)
    ensures var t := Run(messages, lastAction, searches, calls, reply, fuel, chat, decode, search);
      Guarded(t.searches, t.lastAction)
    decreases fuel, 1
  {
    if fuel > 0 {
      var c := chat(messages);
      var d := decode(c);
      var r := StepOn(messages, lastAction, c, d.request, d.exit, search);
      StepGuarded(messages, lastAction, searches, c, d.request, d.exit, search);
      AfterGuarded(r, searches, calls + 1, c, fuel - 1, chat, decode, search);
    }
  }

  lemma {:induction false} AfterGuarded(r: StepResult, searches: seq<string>, calls: nat, c: string,
                                        fuel: nat, chat: seq<Message> -> string, decode: string -> Decision,
                                        search: string -> string)
    requires Guarded(Record(searches, r.searched), r.lastAction)
    ensures var t := After(r, searches, calls, c, fuel, chat, decode, search);
      Guarded(t.searches, t.lastAction)
    decreases fuel, 2
  {
    if r.exit == Continue {
      RunGuarded(r.messages, r.lastAction, Record(searches, r.searched), calls, c, fuel, chat, decode, search);
    }
  }

  /**
   * Over a whole loop no keyword is searched twice in a row, the empty keyword is never the
   * first keyword searched (before any search `last_action` is `""`, which makes it a repeat),
   * and `last_action` ends as the last keyword searched.
   */
  lemma NoRepeatedSearch(system: string, session: seq<Message>, prompt: string,
      chat: seq<Message> -> string, search: string -> string)
    ensures Guarded(Reasoning(system, session, prompt, chat, search).searches,
                    Reasoning(system, session, prompt, chat, search).lastAction)
  {
    RunGuarded(Window(system, session, prompt), "", [], 0, "", Config.MaxReasoningSteps, chat, Decode, search);
  }

  /** The step `app.py` takes on the reply `c`. */
  function StepWith(messages: seq<Message>, lastAction: string, c: string, search: string -> string): StepResult
  {
    StepOn(messages, lastAction, c, Decode(c).request, Decode(c).exit, search)
  }

  /**
   * How a reply is read: it asks for a search exactly when it holds a retrieval marker, the
   * keyword being `Keyword(c)`; it concludes with a `Final Answer` first, else with a direct
   * answer, else not at all.
   */
  lemma DecodeMeaning(c: string)
    ensures Decode(c).request.Some? <==> AsksRetrieval(c)
    ensures Decode(c).request.Some? ==> Decode(c).request.value == Keyword(c)
    ensures HasFinalAnswer(c) <==> Decode(c).exit.ByFinalAnswer?
    ensures HasFinalAnswer(c) ==> Decode(c).exit.text == FinalAnswerText(c)
    ensures Decode(c).exit == ByDirectAnswer <==> !HasFinalAnswer(c) && DirectAnswer(c)
  {
  }

  /** Before any search, an empty keyword is taken for a repeat: no search, the repeat observation. */
  lemma EmptyKeywordIsRepeat(messages: seq<Message>, c: string, search: string -> string)
    requires AsksRetrieval(c) && Keyword(c) == ""
    ensures StepWith(messages, "", c, search).searched == None
    ensures StepWith(messages, "", c, search).messages
         == messages + [Message(Assistant, c), Message(User, RepeatObservation)]
  {
    DecodeMeaning(c);
    RepeatStep(messages, "", c, Decode(c), search);
  }

  lemma RepeatStep(messages: seq<Message>, lastAction: string, c: string, d: Decision, search: string -> string)
    requires d.request == Some(lastAction)
    ensures StepOn(messages, lastAction, c, d.request, d.exit, search).searched == None
    ensures StepOn(messages, lastAction, c, d.request, d.exit, search).messages
         == messages + [Message(Assistant, c), Message(User, RepeatObservation)]
  {
    assert [Message(Assistant, c), Message(User, RepeatObservation)] == [Message(Assistant, c)] + [Message(User, RepeatObservation)];
  }

  /** A reply that both asks for a new search and concludes does both: the search runs first. */
  lemma SearchThenConclude(messages: seq<Message>, lastAction: string, c: string,
                           search: string -> string)
    requires AsksRetrieval(c) && Keyword(c) != lastAction && HasFinalAnswer(c)
    ensures StepWith(messages, lastAction, c, search).searched == Some(Keyword(c))
    ensures StepWith(messages, lastAction, c, search).exit == ByFinalAnswer(FinalAnswerText(c))
  {
    DecodeMeaning(c);
  }

  /** A reply mentioning `检索` without a colon neither searches nor ends the loop (unless it concludes). */
  lemma BareMarkerContinues(messages: seq<Message>, lastAction: string, c: string,
      search: string -> string)
    requires Contains(c, "检索") && !AsksRetrieval(c) && !HasFinalAnswer(c)
    ensures StepWith(messages, lastAction, c, search).exit == Continue
    ensures StepWith(messages, lastAction, c, search).searched == None
  {
    DecodeMeaning(c);
  }

  // ---------------------------------------------------------------------------------------------
  // Choosing the answer
  // ---------------------------------------------------------------------------------------------

  /**
   * The status the loop reports: still reasoning (its initial state), concluded, answered
   * directly, forced to end on the last reply, or without conclusion.
   */
  datatype Status = Running | Complete | CompleteDirect | Forced | NoConclusion

  /**
   * The answer after the loop. A `Final Answer` with a non-empty text gives that text; a direct
   * answer gives the reply. Otherwise (budget used up, or an empty `Final Answer` text) the last
   * reply when it is longer than 10 characters, else the canned no-conclusion text. The answer
   * is never empty.
   */
  function Conclude(t: Trace): (r: (string, Status))
    ensures r.0 != "" && r.1 != Running
    ensures t.ending.Concluded? && t.ending.exit.ByFinalAnswer? && t.ending.exit.text != "" ==>
      r == (t.ending.exit.text, Complete)
    ensures t.ending == Concluded(ByDirectAnswer) && t.reply != "" ==> r == (t.reply, CompleteDirect)
    ensures r.1 == Complete ==> t.ending == Concluded(ByFinalAnswer(r.0))
    ensures r.1 == CompleteDirect ==> t.ending == Concluded(ByDirectAnswer) && r.0 == t.reply
    ensures r.1 == Forced ==> r.0 == t.reply && |t.reply| > 10
    ensures r.1 == NoConclusion ==> r.0 == NoConclusionText && |t.reply| <= 10
  {
    var (answer, status) :=
      match t.ending
      case Concluded(ByFinalAnswer(text)) => (text, Complete)
      case Concluded(ByDirectAnswer) => (t.reply, CompleteDirect)
      case _ => ("", Forced);
    if answer != "" then (answer, status)
    else if |t.reply| > 10 then (t.reply, Forced)
    else (NoConclusionText, NoConclusion)
  }

  // ---------------------------------------------------------------------------------------------
  // The loop as the app runs it
  // ---------------------------------------------------------------------------------------------

  lemma Advance(messages: seq<Message>, lastAction: string, searches: seq<string>, calls: nat,
                reply: string, fuel: nat, chat: seq<Message> -> string, decode: string -> Decision,
                search: string -> string)
    requires fuel >= 1
    ensures var c := chat(messages);
      Run(messages, lastAction, searches, calls, reply, fuel, chat, decode, search)
      == After(StepOn(messages, lastAction, c, decode(c).request, decode(c).exit, search), searches,
               calls + 1, c, fuel - 1, chat, decode, search)
  {
  }

  lemma AfterStop(r: StepResult, searches: seq<string>, calls: nat, c: string, fuel: nat,
                  chat: seq<Message> -> string, decode: string -> Decision, search: string -> string)
    requires r.exit != Continue
    ensures After(r, searches, calls, c, fuel, chat, decode, search)
         == Trace(r.messages, r.lastAction, Record(searches, r.searched), calls, c, Concluded(r.exit))
  {
  }

  lemma AfterGoOn(r: StepResult, searches: seq<string>, calls: nat, c: string, fuel: nat,
                  chat: seq<Message> -> string, decode: string -> Decision, search: string -> string)
    requires r.exit == Continue
    ensures After(r, searches, calls, c, fuel, chat, decode, search)
         == Run(r.messages, r.lastAction, Record(searches, r.searched), calls, c, fuel, chat, decode, search)
  {
  }

  /** A step whose reply concludes ends the loop with that step's state. */
  lemma StepStop(messages: seq<Message>, lastAction: string, searches: seq<string>, calls: nat,
                 reply: string, fuel: nat, chat: seq<Message> -> string, decode: string -> Decision,
                 search: string -> string, total: Trace)
    requires fuel >= 1 && decode(chat(messages)).exit != Continue
    requires Run(messages, lastAction, searches, calls, reply, fuel, chat, decode, search) == total
    ensures var c := chat(messages);
      var r := StepOn(messages, lastAction, c, decode(c).request, decode(c).exit, search);
      total == Trace(r.messages, r.lastAction, Record(searches, r.searched), calls + 1, c, Concluded(r.exit))
  {
    var c := chat(messages);
    var r := StepOn(messages, lastAction, c, decode(c).request, decode(c).exit, search);
    Advance(messages, lastAction, searches, calls, reply, fuel, chat, decode, search);
    AfterStop(r, searches, calls + 1, c, fuel - 1, chat, decode, search);
  }

  /** A step whose reply does not conclude leaves the rest of the loop to run from its state. */
  lemma StepOnward(messages: seq<Message>, lastAction: string, searches: seq<string>, calls: nat,
                   reply: string, fuel: nat, chat: seq<Message> -> string, decode: string -> Decision,
                   search: string -> string, total: Trace,
                   next: seq<Message>, nextAction: string, nextSearches: seq<string>,
                   nextCalls: nat, rest: nat, nextReply: string)
    requires fuel == rest + 1 && nextCalls == calls + 1 && nextReply == chat(messages)
    requires decode(chat(messages)).exit == Continue
    requires Run(messages, lastAction, searches, calls, reply, fuel, chat, decode, search) == total
    requires var c := chat(messages);
      var r := StepOn(messages, lastAction, c, decode(c).request, decode(c).exit, search);
      next == r.messages && nextAction == r.lastAction && nextSearches == Record(searches, r.searched)
    ensures Run(next, nextAction, nextSearches, nextCalls, nextReply, rest, chat, decode, search) == total
  {
    var c := chat(messages);
    var r := StepOn(messages, lastAction, c, decode(c).request, decode(c).exit, search);
    Advance(messages, lastAction, searches, calls, reply, fuel, chat, decode, search);
    AfterGoOn(r, searches, calls + 1, c, fuel - 1, chat, decode, search);
  }

  /** The window built message by message. */
  lemma WindowBuilt(system: string, session: seq<Message>, prompt: string, historyStart: int,
                    built: seq<Message>)
    requires historyStart == Max(0, |session| - HistoryLength)
    requires built == [Message(System, system)] + session[historyStart..|session|]
    ensures built + [Message(User, prompt)] == Window(system, session, prompt)
  {
    assert session[historyStart..|session|] == session[historyStart..];
  }

  /** The fallback after the loop, as `Conclude` states it. */
  lemma Fallback(t: Trace, finalAnswer: string, status: Status)
    requires t.ending.Exhausted? ==> finalAnswer == "" && status == Running
    requires t.ending == Concluded(ByDirectAnswer) ==> finalAnswer == t.reply && status == CompleteDirect
    requires t.ending.Concluded? && t.ending.exit.ByFinalAnswer? ==>
      finalAnswer == t.ending.exit.text && status == Complete
    requires t.ending != Concluded(Continue)
    ensures finalAnswer != "" ==> (finalAnswer, status) == Conclude(t)
    ensures finalAnswer == "" && |t.reply| > 10 ==> (t.reply, Forced) == Conclude(t)
    ensures finalAnswer == "" && |t.reply| <= 10 ==> (NoConclusionText, NoConclusion) == Conclude(t)
  {
  }

  /**
   * The retrieval half of a step: append the reply, then, for a search request, either the
   * repeat observation (the keyword is `last_action`) or the observation of a fresh search.
   */
  method Retrieve(messages: seq<Message>, lastAction: string, c: string, request: Option<string>,
                  ghost exit: Exit, search: string -> string)
    returns (after: seq<Message>, action: string, searched: Option<string>)
    ensures var r := StepOn(messages, lastAction, c, request, exit, search);
      after == r.messages && action == r.lastAction && searched == r.searched
  {
    after := messages + [Message(Assistant, c)];
    action := lastAction;
    searched := None;
    if request.Some? {
      var keyword := request.value;
      var obs;
      if keyword == lastAction {
        obs := RepeatObservation;
      } else {
        var res := search(keyword);
        obs := Observation(res);
        action := keyword;
        searched := request;
      }
      after := after + [Message(User, obs)];
    }
  }

  /**
   * The step loop of `app.py` from the conversation `start`, reading replies with `decode`. It
   * returns the conversation, the last reply, and the answer and status the loop itself set: none
   * when the budget ran out, the reply for a direct answer, the `Final Answer` text otherwise.
   */
  method Steps(start: seq<Message>, chat: seq<Message> -> string, decode: string -> Decision,
               search: string -> string)
    returns (finalAnswer: string, status: Status, aiContent: string, messages: seq<Message>)
    ensures var t := Run(start, "", [], 0, "", Config.MaxReasoningSteps, chat, decode, search);
      && messages == t.messages && aiContent == t.reply && t.ending != Concluded(Continue)
      && (t.ending.Exhausted? ==> finalAnswer == "" && status == Running)
      && (t.ending == Concluded(ByDirectAnswer) ==> finalAnswer == t.reply && status == CompleteDirect)
      && (t.ending.Concluded? && t.ending.exit.ByFinalAnswer? ==>
            finalAnswer == t.ending.exit.text && status == Complete)
  {
    ghost var total := Run(start, "", [], 0, "", Config.MaxReasoningSteps, chat, decode, search);
    messages := start;
    finalAnswer := "";
    var lastAction := "";
    aiContent := "";
    status := Running;
    ghost var searches: seq<string> := [];
    for step := 0 to Config.MaxReasoningSteps
      invariant Run(messages, lastAction, searches, step, aiContent, Config.MaxReasoningSteps - step, chat,
                    decode, search) == total
      invariant finalAnswer == "" && status == Running
    {
      ghost var fuel := Config.MaxReasoningSteps - step;
      ghost var (m0, a0, s0, c0) := (messages, lastAction, searches, aiContent);
      aiContent := chat(messages);
      var decision := decode(aiContent);
      var searched;
      messages, lastAction, searched := Retrieve(messages, lastAction, aiContent, decision.request, decision.exit, search);
      searches := Record(searches, searched);
      match decision.exit
      case ByFinalAnswer(text) =>
        StepStop(m0, a0, s0, step, c0, fuel, chat, decode, search, total);
        finalAnswer := text;
        status := Complete;
        break;
      case ByDirectAnswer =>
        StepStop(m0, a0, s0, step, c0, fuel, chat, decode, search, total);
        finalAnswer := aiContent;
        status := CompleteDirect;
        break;
      case Continue =>
        StepOnward(m0, a0, s0, step, c0, fuel, chat, decode, search, total, messages, lastAction, searches,
                   step + 1, Config.MaxReasoningSteps - (step + 1), aiContent);
    }
  }

  /**
   * The reasoning for `prompt`, with `session` the session history (the prompt already appended).
   * Returns the answer, the status shown, and the conversation the model saw, which the window
   * built fresh: `session` itself is never changed.
   */
  method Reason(system: string, session: seq<Message>, prompt: string, chat: seq<Message> -> string,
                search: string -> string)
    returns (answer: string, status: Status, messages: seq<Message>)
    ensures (answer, status) == Conclude(Reasoning(system, session, prompt, chat, search))
    ensures messages == Reasoning(system, session, prompt, chat, search).messages
  {
    messages := [Message(System, system)];
    var historyStart := Max(0, |session| - HistoryLength);
    for k := historyStart to |session|
      invariant messages == [Message(System, system)] + session[historyStart..k]
    {
      messages := messages + [session[k]];
    }
    WindowBuilt(system, session, prompt, historyStart, messages);
    messages := messages + [Message(User, prompt)];
    var finalAnswer, aiContent;
    finalAnswer, status, aiContent, messages := Steps(messages, chat, Decode, search);
    Fallback(Reasoning(system, session, prompt, chat, search), finalAnswer, status);
    if finalAnswer == "" {
      if |aiContent| > 10 {
        finalAnswer := aiContent;
        status := Forced;
      } else {
        finalAnswer := NoConclusionText;
        status := NoConclusion;
      }
    }
    answer := finalAnswer;
  }

  /** The chat session: `st.session_state.messages`. */
  class ChatSession {
    var messages: seq<Message>
    /** The `SYSTEM_PROMPT` every conversation of this session opens with. */
    const system: string

    /** A new session opens with the assistant's greeting and uses the configured system prompt. */
    constructor ()
      ensures messages == [Message(Assistant, Greeting)]
      ensures system == Config.SystemPrompt
    {
      messages := [Message(Assistant, Greeting)];
      system := Config.SystemPrompt;
    }

    /**
     * Handles one chat input. An empty input does nothing. Otherwise the prompt is appended as a
     * user message, the loop reasons over the session, and exactly one non-empty assistant
     * message, the answer, is appended.
     */
    method Ask(prompt: string, chat: seq<Message> -> string, search: string -> string)
      returns (answer: string, status: Status)
      modifies this
      ensures prompt == "" ==> messages == old(messages) && answer == "" && status == Running
      ensures prompt != "" ==>
        (answer, status) == Conclude(Reasoning(system, old(messages) + [Message(User, prompt)], prompt, chat, search))
      ensures prompt != "" ==> answer != ""
      ensures prompt != "" ==> messages == old(messages) + [Message(User, prompt), Message(Assistant, answer)]
    {
      if prompt == "" {
        return "", Running;
      }
      ghost var before := messages;
      var session := messages + [Message(User, prompt)];
      messages := session;
      var sent;
      answer, status, sent := Reason(system, session, prompt, chat, search);
      if answer != "" {
        messages := session + [Message(Assistant, answer)];
        ConcatAssoc(before, [Message(User, prompt)], [Message(Assistant, answer)]);
      }
    }
  }
}
