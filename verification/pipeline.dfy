/**
 The per-prompt query pipeline of app.py `main` (lines 191-309) as one step function
 over an immutable session record and the shared answer cache, plus the access-request
 transition behind the "Request Access" button. Every collaborator (cache store, search,
 generation, history store, notification) is an abstract outcome supplied in `Env`;
 the step reports which of the search and generation calls it made.
 */
module Pipeline {
  import opened Wrappers
  import opened Text
  import opened Roles
  import opened Clearance
  import opened CacheKey
  import opened AnswerCache
  import opened Denial
  import opened Escalation
  import opened Users

  /** What `main` keeps in the session state once a user is logged in. */
  datatype Session = Session(role: string, username: string, employeeId: string,
                             messages: seq<Message>, lastDenial: Option<string>)

  datatype RetrievalOutcome = Retrieved(passages: seq<Passage>) | RetrievalError
  datatype GenerationOutcome = Generated(text: string) | GenerationError

  /** How each collaborator behaves during this step; `now` is the clock in whole seconds. */
  datatype Env = Env(cacheReadFails: bool, retrieval: RetrievalOutcome, generation: GenerationOutcome,
                     cacheWriteFails: bool, historyWriteFails: bool, now: int)

  /** The collaborator calls a step made: the filter it searched with, if it searched,
      and whether it asked for a generation. */
  datatype Calls = Calls(search: Option<SearchFilter>, generation: bool)

  const NoCalls: Calls := Calls(None, false)

  datatype Stage = RetrievalStage | GenerationStage | HistoryStage

  datatype Outcome =
    | Idle                         // no prompt was submitted
    | FromCache                    // served from the answer cache
    | Classified(verdict: Verdict) // answered or denied after retrieval
    | Failed(stage: Stage)         // an exception ended the step

  datatype StepResult = StepResult(session: Session, cache: Cache, calls: Calls, outcome: Outcome)

  /** The source URIs of the retrieved passages, in order. */
  function Sources(passages: seq<Passage>): (uris: seq<string>)
    ensures |uris| == |passages|
    ensures forall i :: 0 <= i < |passages| ==> uris[i] == passages[i].uri
  {
    seq(|passages|, i requires 0 <= i < |passages| => passages[i].uri)
  }

  /** The end of a classified step: the answer is appended to the history, the history is
      saved, and only then is the denial armed. A failing history save is caught by the
      step's `except`, so the denial is then not armed. */
  function Finish(s: Session, cache: Cache, calls: Calls, answer: string, verdict: Verdict,
                  prompt: string, historyWriteFails: bool): (r: StepResult)
    requires s.lastDenial == None
    ensures r.session.messages == s.messages + [Message(Assistant, answer)]
    ensures r.session.lastDenial == if r.outcome == Classified(Denied) then Some(prompt) else None
    ensures r.outcome == if historyWriteFails then Failed(HistoryStage) else Classified(verdict)
    ensures r.session == s.(messages := r.session.messages, lastDenial := r.session.lastDenial)
    ensures r.cache == cache && r.calls == calls
  {
    var s' := s.(messages := s.messages + [Message(Assistant, answer)]);
    if historyWriteFails then StepResult(s', cache, calls, Failed(HistoryStage))
    else if verdict.Denied? then StepResult(s'.(lastDenial := Some(prompt)), cache, calls, Classified(Denied))
    else StepResult(s', cache, calls, Classified(Answered))
  }

  /** One submitted prompt. */
  function Step(hash: string -> string, s: Session, cache: Cache, prompt: string, env: Env): (r: StepResult)
    // the identity part of the session never changes
    ensures r.session.role == s.role && r.session.username == s.username
            && r.session.employeeId == s.employeeId
    // an empty chat input is no prompt at all
    ensures prompt == "" ==> r == StepResult(s, cache, NoCalls, Idle)
    // the prompt is recorded first, and history only grows
    ensures prompt != "" ==> (|r.session.messages| > |s.messages|
            && r.session.messages[..|s.messages| + 1] == s.messages + [Message(User, prompt)])
    // the denial is reset on every prompt and armed exactly when the step ends denied
    ensures prompt != "" ==> r.session.lastDenial == if r.outcome == Classified(Denied) then Some(prompt) else None
    // a denied step never writes the cache; only a non-refusal generation can
    ensures r.outcome == Classified(Denied) ==> r.cache == cache
    ensures r.cache != cache ==> (r.calls.generation && env.generation.Generated?
            && !IsRefusal(env.generation.text))
    // search uses the role's own filter, and generation only follows a search
    ensures r.calls.search.Some? ==> r.calls.search.value == FilterFor(s.role)
    ensures r.calls.generation ==> r.calls.search.Some?
    // on a cache miss the step always searches, and generates exactly when passages came back
    ensures prompt != "" && CheckCache(cache, env.cacheReadFails, hash, s.role, prompt).None? ==>
              r.calls.search == Some(FilterFor(s.role))
              && (r.calls.generation <==> env.retrieval.Retrieved? && |env.retrieval.passages| > 0)
    // a classified step is classified from what retrieval and generation returned
    ensures r.outcome.Classified? ==> (env.retrieval.Retrieved? && r.calls.search.Some?
            && if |env.retrieval.passages| == 0 then r.outcome.verdict == Denied
               else env.generation.Generated?
                    && r.outcome.verdict == Classify(env.retrieval.passages, env.generation.text))
  {
    if prompt == "" then StepResult(s, cache, NoCalls, Idle)
    else
      var s1 := s.(messages := s.messages + [Message(User, prompt)], lastDenial := None);
      ExtensionKeepsPrefix(s1.messages);
      match CheckCache(cache, env.cacheReadFails, hash, s.role, prompt)
      case Some(hit) =>
        var s2 := s1.(messages := s1.messages + [Message(Assistant, hit.answer)]);
        StepResult(s2, cache, NoCalls, if env.historyWriteFails then Failed(HistoryStage) else FromCache)
      case None =>
        var searched := Calls(Some(FilterFor(s.role)), false);
        match env.retrieval
        case RetrievalError => StepResult(s1, cache, searched, Failed(RetrievalStage))
        case Retrieved(passages) =>
          if |passages| == 0 then
            Finish(s1, cache, searched, DeniedAnswer, Denied, prompt, env.historyWriteFails)
          else
            var generated := searched.(generation := true);
            match env.generation
            case GenerationError => StepResult(s1, cache, generated, Failed(GenerationStage))
            case Generated(text) =>
              var verdict := Classify(passages, text);
              var cache' := if verdict == Answered
                            then SaveToCache(cache, env.cacheWriteFails, hash, s.role, prompt, text, Sources(passages), env.now)
                            else cache;
              Finish(s1, cache', generated, text, verdict, prompt, env.historyWriteFails)
  }

  /** The result of pressing "Request Access": the session afterwards and the
      notification attempted, if the button was shown. */
  datatype Escalated = Escalated(session: Session, request: Option<Publication>)

  /** The request button is only shown while a denial is armed; the denial is cleared
      only when the notification is sent. */
  function RequestAccess(s: Session, publishFails: bool): (r: Escalated)
    ensures r.session == s.(lastDenial := r.session.lastDenial)
    ensures r.session.lastDenial.None? <==> s.lastDenial.None? || !publishFails
    ensures r.session.lastDenial.Some? ==> r.session.lastDenial == s.lastDenial
    ensures r.request.Some? <==> s.lastDenial.Some?
    ensures r.request.Some? ==> (Contains(r.request.value.message, s.lastDenial.value)
            && Contains(r.request.value.message, s.username)
            && Contains(r.request.value.message, s.employeeId)
            && Contains(r.request.value.subject, s.username)
            && r.request.value.topic == AccessRequestTopic)
  {
    match s.lastDenial
    case None => Escalated(s, None)
    case Some(query) =>
      var result := SendAccessRequest(s.username, s.employeeId, query, publishFails);
      var s' := if result.sent then s.(lastDenial := None) else s;
      Escalated(s', Some(result.attempted))
  }

  /** No cached answer is a refusal. */
  ghost predicate CacheClean(cache: Cache)
  {
    forall k :: k in cache ==> !IsRefusal(cache[k].answer)
  }

  /** Whatever is appended to a sequence, the sequence stays its prefix. */
  lemma ExtensionKeepsPrefix<T>(a: seq<T>)
    ensures forall b: seq<T> {:trigger a + b} :: (a + b)[..|a|] == a
  {
  }

  // ---------------------------------------------------------------------------
  // Properties

  /** A cache hit bypasses search and generation, leaves the cache as it was, and appends
      the stored answer after the prompt. */
  lemma CacheHitBypassesBackends(hash: string -> string, s: Session, cache: Cache, prompt: string, env: Env)
    requires prompt != ""
    requires CheckCache(cache, env.cacheReadFails, hash, s.role, prompt).Some?
    ensures var r := Step(hash, s, cache, prompt, env);
            var hit := CheckCache(cache, env.cacheReadFails, hash, s.role, prompt).value;
            && r.calls == NoCalls && r.cache == cache && r.session.lastDenial == None
            && r.session.messages == s.messages + [Message(User, prompt), Message(Assistant, hit.answer)]
            && r.outcome == (if env.historyWriteFails then Failed(HistoryStage) else FromCache)
  {
  }

  /** Empty retrieval: the fixed denial text, no generation, no cache write, denial armed
      (unless saving the history fails). */
  lemma EmptyRetrievalDenies(hash: string -> string, s: Session, cache: Cache, prompt: string, env: Env)
    requires prompt != ""
    requires CheckCache(cache, env.cacheReadFails, hash, s.role, prompt).None?
    requires env.retrieval == Retrieved([])
    ensures var r := Step(hash, s, cache, prompt, env);
            && r.calls == Calls(Some(FilterFor(s.role)), false) && r.cache == cache
            && r.session.messages == s.messages + [Message(User, prompt), Message(Assistant, DeniedAnswer)]
            && (!env.historyWriteFails ==> r.outcome == Classified(Denied) && r.session.lastDenial == Some(prompt))
            && (env.historyWriteFails ==> r.outcome == Failed(HistoryStage) && r.session.lastDenial == None)
  {
  }

  /** A generated refusal after a non-empty retrieval: the refusal is shown, nothing is
      cached, and the denial is armed (unless saving the history fails). */
  lemma RefusalDenies(hash: string -> string, s: Session, cache: Cache, prompt: string, env: Env)
    requires prompt != ""
    requires CheckCache(cache, env.cacheReadFails, hash, s.role, prompt).None?
    requires env.retrieval.Retrieved? && |env.retrieval.passages| > 0
    requires env.generation.Generated? && IsRefusal(env.generation.text)
    ensures var r := Step(hash, s, cache, prompt, env);
            && r.calls == Calls(Some(FilterFor(s.role)), true) && r.cache == cache
            && r.session.messages == s.messages + [Message(User, prompt), Message(Assistant, env.generation.text)]
            && (!env.historyWriteFails ==> r.outcome == Classified(Denied) && r.session.lastDenial == Some(prompt))
            && (env.historyWriteFails ==> r.outcome == Failed(HistoryStage) && r.session.lastDenial == None)
  {
  }

  /** A non-refusal generation writes exactly one entry, for this role and prompt, with
      a 24-hour TTL; every other key keeps its entry. */
  lemma AnswerIsCached(hash: string -> string, s: Session, cache: Cache, prompt: string, env: Env)
    requires prompt != ""
    requires CheckCache(cache, env.cacheReadFails, hash, s.role, prompt).None?
    requires env.retrieval.Retrieved? && |env.retrieval.passages| > 0
    requires env.generation.Generated? && !IsRefusal(env.generation.text)
    ensures var r := Step(hash, s, cache, prompt, env);
            && r.cache == SaveToCache(cache, env.cacheWriteFails, hash, s.role, prompt,
                                      env.generation.text, Sources(env.retrieval.passages), env.now)
            && r.outcome == (if env.historyWriteFails then Failed(HistoryStage) else Classified(Answered))
            && r.session.messages == s.messages + [Message(User, prompt), Message(Assistant, env.generation.text)]
            && r.session.lastDenial == None
  {
  }

  /** A search or generation failure changes nothing but the recorded prompt. */
  lemma BackendFailureChangesNothing(hash: string -> string, s: Session, cache: Cache, prompt: string, env: Env)
    requires prompt != ""
    requires CheckCache(cache, env.cacheReadFails, hash, s.role, prompt).None?
    requires env.retrieval.RetrievalError?
             || (env.retrieval.Retrieved? && |env.retrieval.passages| > 0 && env.generation.GenerationError?)
    ensures var r := Step(hash, s, cache, prompt, env);
            && r.outcome == Failed(if env.retrieval.RetrievalError? then RetrievalStage else GenerationStage)
            && r.cache == cache
            && r.session == s.(messages := s.messages + [Message(User, prompt)], lastDenial := None)
  {
  }

  /** If the search service honours the filter it is given, an Intern's step only ever
      receives public passages. */
  lemma InternStepSeesOnlyPublic(hash: string -> string, s: Session, cache: Cache, prompt: string, env: Env)
    requires s.role == Name(Intern) && env.retrieval.Retrieved?
    requires Step(hash, s, cache, prompt, env).calls.search.Some?
    requires Honours(Step(hash, s, cache, prompt, env).calls.search.value, env.retrieval.passages)
    ensures forall i :: 0 <= i < |env.retrieval.passages| ==> env.retrieval.passages[i].tag == Tag(Public)
  {
  }

  /** Every step keeps the cache free of refusals. */
  lemma StepKeepsCacheClean(hash: string -> string, s: Session, cache: Cache, prompt: string, env: Env)
    requires CacheClean(cache)
    ensures CacheClean(Step(hash, s, cache, prompt, env).cache)
  {
  }

  /** Every step keeps the cache well keyed, provided the session's role has no ':' (as
      every role stored by registration does). */
  lemma StepKeepsCacheWellKeyed(hash: string -> string, s: Session, cache: Cache, prompt: string, env: Env)
    requires WellKeyed(hash, cache) && NoColon(s.role)
    ensures WellKeyed(hash, Step(hash, s, cache, prompt, env).cache)
  {
  }

  /** Under an injective digest, one role's step never changes what another role's
      lookups return. */
  lemma StepInvisibleToOtherRoles(hash: string -> string, s: Session, cache: Cache, prompt: string, env: Env,
                                  readFails: bool, other: string, query: string)
    requires Injective(hash) && NoColon(s.role) && NoColon(other) && other != s.role
    ensures CheckCache(Step(hash, s, cache, prompt, env).cache, readFails, hash, other, query)
         == CheckCache(cache, readFails, hash, other, query)
  {
    var r := Step(hash, s, cache, prompt, env);
    if r.cache != cache {
      SaveInvisibleToOtherRoles(cache, env.cacheWriteFails, hash, s.role, prompt, env.generation.text,
                                Sources(env.retrieval.passages), env.now, readFails, other, query);
    }
  }

  /** Repeating an answered question (up to case and surrounding whitespace) is served
      from the cache, with the same answer and no search or generation. */
  lemma RepeatedQuestionHitsCache(hash: string -> string, s: Session, cache: Cache, prompt: string, env: Env,
                                  prompt': string, env': Env)
    requires prompt != "" && prompt' != "" && Normalize(prompt') == Normalize(prompt)
    requires CheckCache(cache, env.cacheReadFails, hash, s.role, prompt).None?
    requires env.retrieval.Retrieved? && |env.retrieval.passages| > 0
    requires env.generation.Generated? && !IsRefusal(env.generation.text)
    requires !env.cacheWriteFails && !env'.cacheReadFails
    ensures var r := Step(hash, s, cache, prompt, env);
            var r' := Step(hash, r.session, r.cache, prompt', env');
            && r'.calls == NoCalls && r'.cache == r.cache && r'.session.lastDenial == None
            && r'.outcome == (if env'.historyWriteFails then Failed(HistoryStage) else FromCache)
            && r'.session.messages[|r'.session.messages| - 1] == Message(Assistant, env.generation.text)
  {
    SaveThenCheck(cache, hash, s.role, prompt, prompt', env.generation.text, Sources(env.retrieval.passages),
                  env.now, false);
  }

  /** The request button follows the step before it: a notification is attempted exactly
      after a step that ended denied, it names the denied prompt, and the denial it
      clears is cleared only if the notification is sent. */
  lemma EscalationFollowsDenial(hash: string -> string, s: Session, cache: Cache, prompt: string, env: Env,
                                publishFails: bool)
    requires prompt != ""
    ensures var r := Step(hash, s, cache, prompt, env);
            var e := RequestAccess(r.session, publishFails);
            && (e.request.Some? <==> r.outcome == Classified(Denied))
            && (e.request.Some? ==> Contains(e.request.value.message, prompt)
                                    && e.request.value.topic == AccessRequestTopic
                                    && (e.session.lastDenial.None? <==> !publishFails))
  {
  }
}
