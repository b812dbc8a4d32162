/**
 End-to-end scenarios of the query pipeline, stated over the step function: an intern
 with nothing cleared, a CFO answer that is cached under the CFO's own key, a repeat
 served from the cache, and a failed access request that keeps the denial armed.
 */
module Scenarios {
  import opened Wrappers
  import opened Text
  import opened Roles
  import opened Clearance
  import opened CacheKey
  import opened AnswerCache
  import opened Denial
  import opened Users
  import opened Pipeline

  /** An intern ("in4821") whose search finds nothing is denied: no generation, the
      cache untouched, and the denial armed for an access request. */
  lemma InternWithNothingClearedIsDenied(hash: string -> string, username: string, history: seq<Message>,
                                         cache: Cache, prompt: string, now: int)
    requires prompt != ""
    requires Key(hash, "Intern", prompt) !in cache
    ensures DeriveRole("in4821") == Some(Intern)
    ensures var s := Session(Name(Intern), username, "in4821", history, None);
            var env := Env(false, Retrieved([]), GenerationError, false, false, now);
            var r := Step(hash, s, cache, prompt, env);
            && r.outcome == Classified(Denied) && r.cache == cache
            && !r.calls.generation && r.calls.search == Some(Equals(AccessLevelKey, "public"))
            && r.session.lastDenial == Some(prompt)
  {
  }

  /** A CFO's answered question is cached under a key that differs from the key the
      same question gets for an intern, and the intern's lookup does not see it. */
  lemma CfoAnswerIsCachedForCfoOnly(hash: string -> string, s: Session, cache: Cache, passages: seq<Passage>,
                                    answer: string, now: int)
    requires Injective(hash)
    requires s.role == Name(CFO) && Key(hash, "CFO", "merger terms") !in cache
    requires |passages| == 2 && !IsRefusal(answer)
    ensures var env := Env(false, Retrieved(passages), Generated(answer), false, false, now);
            var r := Step(hash, s, cache, "merger terms", env);
            && r.outcome == Classified(Answered)
            && Key(hash, "CFO", "merger terms") in r.cache
            && r.cache[Key(hash, "CFO", "merger terms")].answer == answer
            && Key(hash, "CFO", "merger terms") != Key(hash, "Intern", "merger terms")
            && CheckCache(r.cache, false, hash, "Intern", "merger terms") == CheckCache(cache, false, hash, "Intern", "merger terms")
  {
  }

  /** Asking the CFO's question again, in other letter case and with surrounding
      whitespace, is served from the cache without search or generation. */
  lemma CfoRepeatIsServedFromCache(hash: string -> string, s: Session, cache: Cache, passages: seq<Passage>,
                                   answer: string, now: int, question: string, variant: string,
                                   p: string, q: string, env': Env)
    requires s.role == Name(CFO) && question != "" && Key(hash, "CFO", question) !in cache
    requires SameUpToCase(question, variant) && AllSpace(p) && AllSpace(q)
    requires |passages| == 2 && !IsRefusal(answer) && !env'.cacheReadFails && !env'.historyWriteFails
    ensures var env := Env(false, Retrieved(passages), Generated(answer), false, false, now);
            var r := Step(hash, s, cache, question, env);
            var r' := Step(hash, r.session, r.cache, p + variant + q, env');
            && r'.outcome == FromCache && r'.calls == NoCalls && r'.cache == r.cache
  {
    var env := Env(false, Retrieved(passages), Generated(answer), false, false, now);
    QueryVariantsShareKey(hash, "CFO", question, variant, p, q);
    RawKeyInjective("CFO", p + variant + q, "CFO", question);
    assert CheckCache(cache, false, hash, s.role, question).None?;
    RepeatedQuestionHitsCache(hash, s, cache, question, env, p + variant + q, env');
  }

  /** When the notification service is unreachable the request fails and the denial
      stays armed, so the user can try again. */
  lemma UnreachableNotifierKeepsDenial(s: Session, query: string)
    requires s.lastDenial == Some(query)
    ensures var r := RequestAccess(s, true);
            r.session == s && r.session.lastDenial == Some(query) && r.request.Some?
  {
  }
}
