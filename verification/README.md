# Zero-trust RAG query pipeline — Dafny model

This project models the query-time decision logic of a retrieval-augmented question
answering portal. Employees sign up with an employee ID. The portal derives a role from
the ID: Intern, HR Manager or CFO. Each question is then answered only from documents at
or below that role's clearance. The model covers:

- **role derivation** from the first two characters of the employee ID (`Roles`);
- **the search filter** built from the role: equality on the `public` tier for interns,
  set membership for everyone else (`Clearance`);
- **the cache key**: the digest of `role + "::" + lower(strip(query))` (`CacheKey`);
- **the answer cache**: a read that fails is a miss, and a write that fails is swallowed
  (`AnswerCache`);
- **the denial classifier**: an empty retrieval is a denial, and so is an answer that
  contains one of seven refusal markers (`Denial`);
- **the access-request notification** (`Escalation`) and **account creation** over the
  user table (`Users`);
- **one pipeline step per submitted prompt**, over an immutable session record and the
  cache map, plus the "Request Access" transition (`Pipeline`, scenarios in `Scenarios`);
- **tier tagging of documents at ingestion** from their file names (`Ingest`).

The external services are not called. Each one is an input of the step (`Pipeline.Env`):
the cache store (read and write faults), the search service (passages or an error), the
generation service (text or an error), the history store (write fault) and the clock
(`now`). The step reports which search and generation calls it made.

SHA-256 is not modelled. The digest is a function parameter `hash: string -> string`.
The docstring of `generate_cache_key` (app.py:26-28) and the cache-isolation test
(tests/test_functional.py:53-67) take for granted that different raw keys give different
digests. The isolation lemmas state that assumption as the explicit hypothesis
`CacheKey.Injective(hash)`, and only where they need it. The password digest of
`create_user` is a parameter in the same way.

Python's Unicode `str.lower()` and `str.strip()` are approximated on ASCII. `Lower` folds
`A`–`Z` only. `Strip` removes the characters that Python's `isspace()` accepts in the ASCII
range: space, `\t`, `\n`, `\v`, `\f`, `\r` and `\x1c`–`\x1f`.

Behaviour of the code that its comments and names do not suggest, and that the model
keeps:

- `save_to_cache` stores a `ttl` and its docstring speaks of a 24-hour TTL "to prevent
  stale data" (app.py:50), but `check_cache` never compares `ttl` with the clock. An
  expired entry is served for as long as the store keeps it
  (`AnswerCache.ExpiredEntryStillServed`).
- Every submitted prompt resets the pending denial before the cache lookup (app.py:206),
  including a repeat of a question that was just denied.
- Every role name other than "Intern" and "HR Manager" gets the widest filter. The user
  table only ever stores derived role names (`Users.CreateUserKeepsKnownRoles`), so in
  practice that branch means CFO.
- The query may itself contain the separator "::". Raw keys still never collide, because
  role names contain no ':' (`CacheKey.RawKeyInjective`).
- On a cache miss, a failure to save the chat history is caught by the step's `except`
  clause. By then the cache write (if any) has already happened, but the denial has not
  been armed yet. `Pipeline.Finish` models this ordering.

## Model

| member | source | states |
|---|---|---|
| Text.Lower | app.py:30 | `str.lower()` on ASCII: the result differs from the input only in letter case and holds no upper-case letter, which determines it uniquely |
| Text.Strip | app.py:30 | `str.strip()` on ASCII: the result is an infix of the input with only whitespace before and after it, and it neither starts nor ends with whitespace (unique by `Text.StripUnique`) |
| Text.Contains | app.py:275-281 | Python's `sub in s`: true exactly when `sub` occurs at some index of `s` |
| Text.StripUnique | app.py:30 | `strip()` is determined by its meaning: splitting a string into whitespace, a core with no whitespace at either end, and whitespace always yields `Strip` as that core |
| Text.StripIgnoresPadding | app.py:30 | adding whitespace before or after a string does not change its strip |
| Roles.DeriveRole | app.py:69-78 | built from `Roles.FirstTwo` (`employee_id[:2]`); a role exists exactly when the ID has at least two characters whose case-folded form is `in`, `hr` or `ex`, and that pair is the role's own prefix; every other string, including a shorter one, gives None (the function is total) |
| Roles.DeriveRoleExact | app.py:74-78 | each role is derived from exactly the IDs whose first two characters fold to that role's prefix |
| Roles.ShortIdUnresolved | app.py:74-78 | an ID shorter than two characters resolves to no role |
| Roles.DeriveRoleFromPrefix | app.py:74-77 | round trip: the role's prefix in any letter case, followed by anything, derives that role |
| Roles.DeriveRoleIgnoresSuffix | app.py:74 | only the first two characters of the ID matter |
| Roles.NamesDistinct | app.py:75-77 | the three role names are pairwise distinct and contain no ':' |
| Roles.DeriveRoleExamples | tests/test_functional.py:25-31 | the unit test's cases: `in12345`, `hr999` and `ex001` give Intern, HR Manager and CFO, and `unknown` gives None; one extra case not in the test, the upper-case `IN4821`, gives Intern |
| Clearance.FilterFor | app.py:192-195 | the filter always tests `access_level`, and it is an equality filter exactly for the role name "Intern" |
| Clearance.FilterAdmitsExactly | app.py:193-195 | the Intern filter admits only `public`; the HR Manager filter admits `{public, hr}`; every other role name admits `{public, hr, finance}` |
| Clearance.FilterMatchesClearanceSet | app.py:193-195 | the filter built from a role's name admits a tier's tag exactly when the tier is in that role's explicit clearance set |
| Clearance.ClearanceMonotone | app.py:193-195 | clearance sets are nested by seniority, and strictly so: Intern ⊂ HR Manager ⊂ CFO |
| Clearance.FiltersNested | app.py:193-195 | whatever the Intern filter admits the HR Manager filter admits, and whatever that admits the widest filter admits; `hr` and `finance` separate the levels |
| Clearance.FilterAdmitsOnlyTierTags | app.py:193-195 | no filter admits any value other than the three tier tags |
| CacheKey.RawKey | app.py:30 | built from `CacheKey.Normalize` (`query.lower().strip()`); round trip: for a role name without ':', splitting the raw key at its first "::" gives back the role name and the normalised query |
| CacheKey.Key | app.py:25-31 | under an injective digest, a stored key for a colon-free role name is produced by no other colon-free role name, and by no query with a different normalised form |
| CacheKey.RawKeyInjective | app.py:30 | raw keys of colon-free role names determine both the role name and the normalised query |
| CacheKey.RolesNeverShareKey | app.py:25-31 | for one query, two different role names (any strings) never share a raw key, and under an injective digest they never share a stored key |
| CacheKey.QueryVariantsShareKey | app.py:30-31 | a query whose letters differ only in case, padded with whitespace, gets the same raw key and the same stored key as the original |
| CacheKey.NormalizeIdempotent | app.py:30 | normalising an already-normalised query changes nothing |
| AnswerCache.CheckCache | app.py:33-45 | a hit happens exactly when the read does not fail and the role-and-query key is stored, and it returns the stored item; a store error is a miss, never a hit |
| AnswerCache.SaveToCache | app.py:47-66 | a write adds exactly the role-and-query key, holding the question, role, answer, sources and `ttl = now + 86400`; no other key changes; a failing write leaves the store unchanged |
| AnswerCache.SaveThenCheck | app.py:38-64 | round trip: after a successful write, the same role reads back the written entry for any query with the same normalised form, unless the read fails |
| AnswerCache.SaveInvisibleToOtherRoles | app.py:52-64 | under an injective digest, a write by one role changes no lookup by another role, whatever the two queries are |
| AnswerCache.SaveKeepsWellKeyed | app.py:52-64 | every write keeps each entry stored under the key of its own role and question |
| AnswerCache.HitBelongsToRole | app.py:38-42 | no cross-role leak: in a well-keyed store under an injective digest, a role's hit is an entry written by the same role for a question with the same normalised form |
| AnswerCache.ExpiredEntryStillServed | app.py:40-42 | the read makes no expiry check: an entry past its `ttl` is still returned |
| Denial.IsRefusal | app.py:275-281 | the chain of seven `in answer.lower()` tests is true exactly when the lower-cased answer contains some marker of the listed seven |
| Denial.Classify | app.py:244-283 | denied exactly when retrieval returned nothing, or when the lower-cased answer contains one of the seven markers |
| Denial.RefusalIgnoresCase | app.py:275-281 | answers that differ only in letter case get the same verdict; classifying the lower-cased answer gives the same verdict |
| Denial.EmptyRetrievalDenied | app.py:244-246 | an empty retrieval is denied, whatever the text |
| Denial.MarkerAnywhereDenied | app.py:275-282 | any answer with a marker anywhere in it, in any case, is denied even when retrieval found passages |
| Denial.ApologyDenied | app.py:275-282 | "I apologize, I do not have access" is denied even when retrieval found passages |
| Escalation.AccessRequestMessage | app.py:125 | the request message contains the username, the employee ID and the denied query |
| Escalation.SendAccessRequest | app.py:124-135 | reports sent exactly when the publish does not raise; publishes to the fixed topic, with a subject that names the user and a message that contains the username, employee ID and query |
| Users.CreateUser | app.py:83-99 | succeeds exactly when the ID derives a role and the username is free; an invalid ID or a taken name leaves the table unchanged and returns that error's message; on success, exactly the new user is added, with the hashed password, the derived role name and an empty history; existing users never change |
| Users.CreateUserKeepsKnownRoles | app.py:84-97 | registration keeps every stored role a name of a derivable role |
| Users.InvalidIdWinsOverTakenName | app.py:84-88 | the ID check comes before the username check |
| Pipeline.Sources | app.py:249-252 | one source URI per retrieved passage, in retrieval order |
| Pipeline.Finish | app.py:286-291 | the answer is appended to the history; the denial is armed only when the verdict is Denied and saving the history did not fail |
| Pipeline.Step | app.py:203-294 | the identity fields never change; an empty prompt changes nothing; otherwise the prompt is recorded first and the pending denial is set to the prompt exactly when the step ends denied, and to None otherwise; a denied step never writes the cache; any cache change comes from a generated answer that is not a refusal; search always uses the role's own filter, and generation only follows a search; on a cache miss the step always searches, and it generates exactly when passages came back; a classified step follows a retrieval, is Denied when nothing came back, and otherwise carries the classifier's verdict on the generated text |
| Pipeline.RequestAccess | app.py:297-307 | the request is attempted exactly when a denial is pending, and it goes to the fixed topic, its subject names the session's username, and its message carries the denied query, the username and the ID; the denial is cleared exactly when the request is sent; nothing else in the session changes |
| Pipeline.CacheHitBypassesBackends | app.py:209-223 | a cache hit makes no search or generation call, leaves the cache unchanged, leaves no pending denial, and appends the prompt and then the stored answer |
| Pipeline.EmptyRetrievalDenies | app.py:244-293 | on an empty retrieval: the fixed "Access Denied" text is appended, there is no generation and no cache write, and the denial is armed with the prompt; if saving the history fails, the step fails and the denial stays unarmed |
| Pipeline.RefusalDenies | app.py:275-293 | a generated refusal after a non-empty retrieval is appended as the answer and nothing is cached; the denial is armed with the prompt, unless saving the history fails, in which case the step fails and the denial stays unarmed |
| Pipeline.AnswerIsCached | app.py:275-284 | an answer that is not a refusal is saved under the role-and-prompt key, with the passage URIs as sources and a 24-hour TTL, and nothing else in the cache changes; the prompt and then the generated text are appended; no denial is left pending |
| Pipeline.BackendFailureChangesNothing | app.py:226-294 | a search or generation error ends the step as failed at that stage, leaves the cache unchanged and the session as it was, except for the recorded prompt and the cleared denial |
| Pipeline.InternStepSeesOnlyPublic | app.py:193-237 | if the search service honours the filter it is given, every passage an Intern's step receives is tagged `public` |
| Pipeline.StepKeepsCacheClean | app.py:275-284 | invariant: a cache holding no refusal answers still holds none after any step |
| Pipeline.StepKeepsCacheWellKeyed | app.py:284 | invariant: every step keeps each entry under the key of its own role and question |
| Pipeline.StepInvisibleToOtherRoles | app.py:209-284 | under an injective digest, one role's step changes no lookup made by another role |
| Pipeline.RepeatedQuestionHitsCache | app.py:209-223 | after an answered step, asking the same question again (up to case and surrounding whitespace) is served from the cache with the same answer, and makes no search or generation call |
| Pipeline.EscalationFollowsDenial | app.py:203-307 | after a step, pressing "Request Access" attempts a notification exactly when the step ended denied; the notification names the denied prompt and goes to the fixed topic, and the denial is cleared exactly when it is sent |
| Scenarios.InternWithNothingClearedIsDenied | app.py:193-291 | ID `in4821` gives an Intern; an empty search under the `public` equality filter is denied, makes no generation call, leaves the cache unchanged and arms the denial |
| Scenarios.CfoAnswerIsCachedForCfoOnly | app.py:209-284 | a CFO's answer to "merger terms", found from two passages, is cached under a key different from the Intern key for the same question, and the Intern's lookup is unchanged |
| Scenarios.CfoRepeatIsServedFromCache | app.py:209-223 | after a CFO's question is answered from two passages, asking it again in other letter case and with surrounding whitespace is served from the cache with no search or generation call |
| Scenarios.UnreachableNotifierKeepsDenial | app.py:297-307 | when the publish fails, the denial stays pending and the session is unchanged |
| Ingest.GetAccessLevel | ingest_bedrock.py:74-86 | the tag is always `hr`, `finance` or `public`: `hr` exactly when the name contains "hr"; `finance` exactly when it contains "finance" but not "hr"; `public` when it contains neither |
| Ingest.PlanUploads | ingest_bedrock.py:96-114 | every file, in order, gets a text object and a `.metadata.json` sidecar tagged with its tier, and every tag is admitted by the widest filter |
| Ingest.PublicName | ingest_bedrock.py:84-86 | a name with no 'h' and no 'f' is public |
| Ingest.HrName | ingest_bedrock.py:84 | a name starting with "hr" is tagged `hr`, whatever follows, even "finance" |
| Ingest.FinanceName | ingest_bedrock.py:85 | a name starting with "finance" and containing no 'h' is tagged `finance` |
| Ingest.ConfiguredPolicyIsPublic | ingest_bedrock.py:17-21 | `policy_public.txt` is public |
| Ingest.ConfiguredSalariesAreHr | ingest_bedrock.py:17-21 | `hr_sensitive_salaries.txt` is tagged hr |
| Ingest.ConfiguredMergerIsFinance | ingest_bedrock.py:17-21 | `finance_secret_merger.txt` is tagged finance |
| Ingest.TaggingOrderAndCase | ingest_bedrock.py:84-86 | "hr" wins over "finance", and matching is case-sensitive: `HR` and `FINANCE.txt` are public |
| Ingest.EveryTagReadable | ingest_bedrock.py:109 | every ingested tag is a tier tag that the widest (CFO) filter admits, so every document is readable by some role |

## Left out

- Streamlit rendering, forms, the login flow (`check_credentials`), `logout`, `st.rerun`
  and `time.sleep`: these are user interface. Only the session-state transitions are kept.
- `save_chat_history`: the history write is kept only as a fault flag
  (`historyWriteFails`). Its effect on the user table is outside the step.
- The cloud clients are not called: search, model invocation, the cache and user tables,
  the notification topic, the S3 uploads and the ingestion job. In the query step their
  results or errors are inputs to the model.
- Ingest.PlanUploads: plans an upload for every listed file and has no error input. The
  `put_object` calls (ingest_bedrock.py:112-114) are outside any `try`, so in the source a
  failed upload ends the loop and the later files are never uploaded.
- The result bound (`numberOfResults: 3`) is a request parameter of the search service.
  The model accepts any passage sequence from it.
- SHA-256 in `generate_cache_key` and `hash_password`: each digest is a parameter. The
  64-character hex form of the digest is not modelled.
- The generation prompt template and the JSON parsing of the model's reply: the generated
  text is an input. The context string built from the passages only feeds that prompt.
- `scrub_pii` and the Presidio recognisers: a foreign NLP library whose behaviour is not
  visible here.
- `clear_cache`, reading the files, and skipping a missing file in the ingestion loop:
  this is I/O plumbing. `PlanUploads` plans an upload for every listed file.
- `create_user`: the user-table read and write may raise, and the source does not catch
  that. The model has no such error.
- A cached item without an `answer` or a `sources` field (app.py:212 and 216) would
  raise outside the step's `try`. The model assumes every stored entry is complete.
- Concurrent sessions writing the same key are not modelled. The store is a map, so a
  later write simply replaces an earlier one.
- Classifying the same text twice always gives the same verdict, because `Classify` is a
  function. No separate lemma states this. `Denial.RefusalIgnoresCase` states the
  case-folding form of that idempotence.
- `Text.Strip` and `Text.Lower`: ASCII approximations of Python's Unicode `strip()` and
  `lower()`, because the model has no Unicode character database.
