# Verified model of the tai42 skeleton's authorization and fleet core

This project models, in Dafny 4.11, the parts of `tai42_skeleton` that decide who may do what and keep a fleet of
workers consistent, and proves what those parts promise. `dafny verify dfyconfig.toml` checks all of it.

**Token-free conditions** (`authz/token_free.py`). A policy condition is a program in a jq fragment. Before a
background fire evaluates one, a hand-written lexer, a recursive-descent parser and a taint rule must accept it, so
that it cannot depend on identity claims a fire does not present. `JqEvaluation` gives the fragment a semantics of
streams that end in a value or an error; `TaintAnalysis` is the rule as written; `NonInterference` proves that an
accepted tree evaluates alike whatever the claims hold beyond the owner. `Lexical`, `ScannerAgreement` and `Lexer`
treat the lexer and the interpolation scanner, which must agree on where an interpolation ends, and `TokenTexts` says
from the characters alone which tokens a text has. `Grammar` is the parse as a function, `Derivation` the grammar as a
relation, `ParserSoundness` and `ParserCompleteness` their equivalence, and `Parser` the parser as it runs, over one
token and depth budget. `TokenFree` joins them from the text to the verdict, and `LeadingReads` reads the verdict off
the text of a condition that begins with a claim.

**Sub-MCP router** (`app/sub_mcp_app.py`). `SubMcpRouter` is the router object, one method for each region its state
lock guards, each equal to a step on the registry; `RouterMachine` interleaves those steps with requests, builds,
failures, cancellations and resets.

**Worker bus** (`app/bus.py`, with the resync of `app/lifecycle.py`). `FleetConvergence` is the protocol by which
workers keep up with the persisted configuration; `FleetReplies` and `WorkerBus` are the two-phase replies, their
collection and what a report is worth.

**Policy store and cache** (`access_control/store.py`, `policy.py`, `management.py`). `PolicyStore` runs grants and
removals statement by statement under row locks; `PolicyCache` is the per-worker cache keyed on a counter that every
mutation bumps after it commits.

**Access decision** (`access_control/` and `authz/check.py`). `PathCanon`, `GateSettings`, `ResourceResolution`,
`RouteTemplates` and `RoleLevels` are the path, prefix, route and level reasoning. `HttpGate`, `ToolEdge` and
`Projection` are the three separately written deciders, over one snapshot of the stores, and the proofs that the tool
edge and the projection never open what the HTTP edge keeps shut. `RegexSampler` is the sampler of route patterns
against the language of a pattern.

Some promises hold only under a condition, and the model states it exactly:

- The tool edge and the projection agree with the HTTP edge except where a path on the login surface is also listed,
  raw, as authenticated-only. Accepted settings exclude that for canonical paths, not for every spelling of one.
- The tool edge needs the effective scopes the HTTP edge decided. Every request binds them with its caller and every
  fire derives them (`ToolEdge.RequestsCarryTheirScopes`); a direct call of the check without them agrees with the
  HTTP edge exactly as `ToolEdge.UncarriedScopesAtTheGate` says.
- The projection's admin shortcut reads the stored owner while the gate attenuates by the claimed one. A shown door is
  then shut exactly when the skipped owner itself refuses (`Projection.ShownDoorsAtTheGate`); an edit of a policy
  rewrites its data wholesale, so a claimed owner can come to be unstored.
- A sub-MCP mount is probed for reach at its root and for conditions one slash further, so a carve-out of the bare root
  shows a mount the probed path may refuse (`Projection.ShownMountsAtTheGate`).
- Re-pointing a mapped url, two url removals at once, and a url removal whose url is unpinned and mapped anew between
  its read and its delete can leave a policy with a scope no route carries (`PolicyStore.UpsertSafety`,
  `PolicyStore.ConcurrentRemovalsSafety`, `PolicyStore.UnpinnedRemovalSafety`).
- A path synthesized without braces and line ends matches its own template exactly when no parameter of the template
  has a converter other than `path` (`RouteTemplates.SynthesizedPathsMatch`); a value with a brace in it can spell
  such a template out and match (`RouteTemplates.BracesSpellTheTemplate`).
- A pattern repeat with maximum zero is sampled wrongly unless its body's sample is empty, which the final full match
  then catches (`RegexSampler.EmptyRepeatsAreMissampled`).

Where the code and its comments differ the model follows the code. The subscription's comment says that on a quick
reconnect the prior presence key is still live; teardown deletes the key whenever it can, so a worker stays counted
across a reconnect exactly when it was counted, the delete failed and the key has not been removed since
(`FleetConvergence.CountedAcrossReconnect`). In the grammar, a comparison may have a binding that is still open at its
right end as its left operand (`. as $x | a == b == c`), which `Derivation` states with its `open` flag.

## Model

| member | source | states |
|---|---|---|
| TokenFree.AssertTokenFreeEvaluable | src/tai42_skeleton/authz/token_free.py:1009-1031 | Accepts exactly the texts that lex and parse within the budget and whose one tree passes the taint rule; what it accepts gives one output stream, values and error, over all contexts that agree outside the identity claims. Which tokens a text has is `TokenTexts.LexingIsReading`, by its characters alone. |
| LeadingReads.LeadingClaimReadsRefused | src/tai42_skeleton/authz/token_free.py:945-955 | From the text: a condition that begins `.identity.<claim>` for any claim but `owner_user_id` is refused, whatever follows. |
| LeadingReads.LeadingIdentityReads | src/tai42_skeleton/authz/token_free.py:923-958 | However the claim is spelled and whatever follows, what is accepted of the conditions that begin `.identity` begins with the owner reference, taken no further. |
| LeadingReads.LeadingClaimReads | src/tai42_skeleton/authz/token_free.py:923-958 | What is accepted of those that begin `.identity.` begins with the owner reference and reads nothing past it. |
| LeadingReads.LeadingFields | src/tai42_skeleton/authz/token_free.py:396-407 | A condition that begins `.first.second` has a tree that begins by projecting the context by just those two names. |
| LeadingReads.TwoFieldConditions | src/tai42_skeleton/authz/token_free.py:1009-1031 | The condition `.first.second` stands for that read, and is accepted exactly when it reads no claim but the owner. |
| TaintAnalysis.CarefulIsAccepted | src/tai42_skeleton/authz/token_free.py:885-995 | The rule refuses no more than it says: a condition that reaches the context through such reads alone is accepted. |
| TaintAnalysis.ClosedIsSafe | src/tai42_skeleton/authz/token_free.py:885-995 | Past the context nothing is refused but an unbound variable: any tree without error handlers over a safe input is safe. |
| NonInterference.AcceptedConditionIgnoresClaims | src/tai42_skeleton/authz/token_free.py:858-995 | Noninterference: an accepted tree evaluates alike under any two contexts that agree on every field but `identity`, where both identities are objects with the same `owner_user_id` or both lack it. |
| NonInterference.TaintSound | src/tai42_skeleton/authz/token_free.py:885-921 | The invariant behind it, for every node, scope and pair of related environments: the taint the rule assigns bounds how the two output streams can differ. |
| NonInterference.BinarySound | src/tai42_skeleton/authz/token_free.py:974-986 | The same for pipes, commas, alternatives and operators: a pipe re-taints the subject, `,` and `//` join, every other operator needs both sides safe. |
| NonInterference.SuffixesSound | src/tai42_skeleton/authz/token_free.py:923-958 | The same for suffix chains: a context value is consumed only by a static field, and `identity` only together with the owner reference right after it. |
| NonInterference.OwnerReference | src/tai42_skeleton/authz/token_free.py:945-955 | Reading `.identity.owner_user_id` gives one stream under both contexts, whatever else the identities hold. |
| NonInterference.CallSound | src/tai42_skeleton/authz/token_free.py:960-972 | A builtin call whose subject and arguments are safe gives one stream, for the argument evaluation each builtin has (`map`, `any`, `all` and `IN` included). |
| NonInterference.BoundSound | src/tai42_skeleton/authz/token_free.py:911-913 | A body bound over a stream's values stays related, value by value, under the taint the variable was given. |
| NonInterference.FireDecidesAsRequest | src/tai42_skeleton/authz/token_free.py:1009-1031 | An accepted condition decides a background fire, which presents at most the owner reference, exactly as it decides the request with the full claims. |
| NonInterference.StaticReadExact | src/tai42_skeleton/authz/token_free.py:923-958 | Static reads of the context, of any length and spelling: those that ignore the claims are exactly those that start outside `identity` or go through `.identity.owner_user_id`, and the rule accepts every one of them but those that go on past the owner reference. |
| NonInterference.StaticReadTaint | src/tai42_skeleton/authz/token_free.py:945-955 | Which static reads the rule accepts: any that start at another field, and `.identity.owner_user_id` itself. |
| NonInterference.ClaimReadTells | src/tai42_skeleton/authz/token_free.py:945-955 | The whole context, the whole identity, and a read of any other claim, to any depth, each tell two contexts apart that agree outside the claims. |
| TaintAnalysis.WalkProjection | src/tai42_skeleton/authz/token_free.py:923-958 | The suffix loop returns the chain's taint as the recursive rule defines it, refusals included. |
| ScannerAgreement.ScanPassesToken | src/tai42_skeleton/authz/token_free.py:280-344 | The interpolation scanner passes any token the lexer reads: it resumes at the token's end with its parenthesis depth adjusted, so both visit the same quotes. |
| ScannerAgreement.HoleTokensStayInside | src/tai42_skeleton/authz/token_free.py:319-415 | Whenever the span of an interpolation lexes, every token lies wholly inside the span, although string and operator lexing are not bounded by its end. |
| ScannerAgreement.ConditionTokensTile | src/tai42_skeleton/authz/token_free.py:347-415 | The tokens of a condition tile its text in order, with only blanks between them. |
| ScannerAgreement.LiteralHoles | src/tai42_skeleton/authz/token_free.py:280-316 | Every interpolation of a literal is closed by the scanner, inside the literal. |
| ScannerAgreement.HoleWellLexed | src/tai42_skeleton/authz/token_free.py:825-834 | The sub-lexing of an interpolation span gives a well-formed token list of its own. |
| ScannerAgreement.HoleInside | src/tai42_skeleton/authz/token_free.py:825-834 | An interpolation spans strictly less text than the token list that holds it, which is what makes nested scans terminate. |
| ScannerAgreement.ConditionWellLexed | src/tai42_skeleton/authz/token_free.py:1009-1031 | Lexing a whole condition gives such a token list, ended by END. |
| Lexical.OperatorsWellOrdered | src/tai42_skeleton/authz/token_free.py:79-114 | The operator list is ordered so that the first match is the longest: no operator is shadowed by a prefix of it that comes earlier. |
| TokenTexts.TokenIsSaid | src/tai42_skeleton/authz/token_free.py:361-411 | What text a token carries, from its characters alone and both ways: a field is a dot and then exactly the name, a variable likewise past its sigil, names, numbers, formats and operators are their own stretch, literals and quoted fields the decoded literal; each is as long as it can be, and the lexer takes nothing where the characters say nothing. |
| TokenTexts.LexingIsReading | src/tai42_skeleton/authz/token_free.py:347-415 | The tokens of a condition are exactly those its characters say, with only blanks between them; where they say none it does not lex. |
| TokenTexts.LiteralIsSpelled | src/tai42_skeleton/authz/token_free.py:280-344 | A literal's value, holes and end are those its characters and escapes spell out, holes closed with nested literals skipped, and it is the only one. |
| TokenTexts.OperatorIsLongest | src/tai42_skeleton/authz/token_free.py:401-411 | The operator taken is the longest of the listed ones that the text has there. |
| Lexer.AssertSourceShape | src/tai42_skeleton/authz/token_free.py:157-202 | Accepts exactly the texts without comments, control characters or characters outside printable ASCII. |
| Lexer.Budget.Spend | src/tai42_skeleton/authz/token_free.py:217-226 | Counts one token and succeeds exactly while the total is at most 256. |
| Lexer.Budget.Descend | src/tai42_skeleton/authz/token_free.py:228-238 | Counts one level, before refusing it beyond 32. |
| Lexer.LexString | src/tai42_skeleton/authz/token_free.py:280-316 | Succeeds exactly when the literal is well formed and its nesting fits the depth left; on success the token is the literal and the depth is back at its entry value. |
| Lexer.ScanInterpolation | src/tai42_skeleton/authz/token_free.py:319-344 | Succeeds exactly when the parenthesis is closed within the depth left, and then returns the closing position with the depth restored. |
| Lexer.LexNumber | src/tai42_skeleton/authz/token_free.py:418-435 | The loop form of number lexing returns a well-formed numeral and its end, and no longer prefix of the span is one. |
| Lexical.NumberIsLongest | src/tai42_skeleton/authz/token_free.py:418-435 | The lexer's branches find the longest: digits, then a fraction with at least one digit, then an exponent with at least one, each taken exactly when it is there. |
| Lexer.LexToken | src/tai42_skeleton/authz/token_free.py:361-411 | One token, or a refusal, as the token grammar at that position says; succeeds exactly within the depth left. The grammar is tied to the characters by `TokenTexts.TokenIsSaid`. |
| Lexer.Lex | src/tai42_skeleton/authz/token_free.py:347-415 | Succeeds exactly when the span lexes within the tokens and the depth left; on success the tokens spent are the tokens returned and the depth is restored. |
| ParserSoundness.ParseSound | src/tai42_skeleton/authz/token_free.py:597-834 | Soundness: a parse is a derivation of the stated precedence grammar whose yield is exactly the tokens consumed, interpolation bodies included, and it stops before a token that would extend it. |
| ParserSoundness.ChainSound | src/tai42_skeleton/authz/token_free.py:617-668 | Left-associative levels derive their operands in order, left to right. |
| ParserSoundness.InterpolationSound | src/tai42_skeleton/authz/token_free.py:825-834 | A parsed interpolation body is a derivation over the whole of its span. |
| ParserCompleteness.ParseComplete | src/tai42_skeleton/authz/token_free.py:597-834 | Completeness: every derivation that no following token would extend is the parse the parser finds. |
| ParserCompleteness.AnyComplete | src/tai42_skeleton/authz/token_free.py:597-834 | The same for a derivation of a whole span, whether or not a binding at its right end would take more. |
| ParserCompleteness.InterpolationComplete | src/tai42_skeleton/authz/token_free.py:825-834 | Every derivation of an interpolation span is found. |
| TokenFree.ParseIsMeaning | src/tai42_skeleton/authz/token_free.py:564-570 | The parse that reaches END is the one derivation of the text there is. |
| TokenFree.MeaningUnique | src/tai42_skeleton/authz/token_free.py:548-834 | The grammar is unambiguous: a text stands for at most one tree. |
| TokenFree.MeaningAllowlisted | src/tai42_skeleton/authz/token_free.py:798-823 | Every call in the tree of a text, interpolations included, has an allowlisted name at a permitted arity. |
| ConditionAst.BuiltinsListed | src/tai42_skeleton/authz/token_free.py:29-41 | The allowlist, name by name and arity by arity. |
| Parser.TokenParser.ParsePipe | src/tai42_skeleton/authz/token_free.py:606-615 | A pipe, right-associative, at one level of depth: the method succeeds exactly when the grammar's parse exists and fits the tokens and depth left, returns that parse, stops at its last token, spends exactly its tokens and restores the depth. |
| Parser.TokenParser.ParseAlternative | src/tai42_skeleton/authz/token_free.py:624-633 | `//`, right-associative: the method succeeds exactly when the grammar's parse exists and fits the tokens and depth left, returns that parse, stops at its last token, spends exactly its tokens and restores the depth. |
| Parser.TokenParser.ParseComparison | src/tai42_skeleton/authz/token_free.py:649-654 | At most one comparison: the method succeeds exactly when the grammar's parse exists and fits the tokens and depth left, returns that parse, stops at its last token, spends exactly its tokens and restores the depth. |
| Parser.TokenParser.ParseLeft | src/tai42_skeleton/authz/token_free.py:617-668 | The left-associative levels, as a loop: the method succeeds exactly when the grammar's parse exists and fits the tokens and depth left, returns that parse, stops at its last token, spends exactly its tokens and restores the depth. |
| Parser.TokenParser.ParseUnary | src/tai42_skeleton/authz/token_free.py:670-686 | Negation and `try`: the method succeeds exactly when the grammar's parse exists and fits the tokens and depth left, returns that parse, stops at its last token, spends exactly its tokens and restores the depth. |
| Parser.TokenParser.ParsePostfix | src/tai42_skeleton/authz/token_free.py:688-722 | A term with its suffixes, or a binding: the method succeeds exactly when the grammar's parse exists and fits the tokens and depth left, returns that parse, stops at its last token, spends exactly its tokens and restores the depth. |
| Parser.TokenParser.ParseBinding | src/tai42_skeleton/authz/token_free.py:713-722 | `as $name \| body`: the method succeeds exactly when the grammar's parse exists and fits the tokens and depth left, returns that parse, stops at its last token, spends exactly its tokens and restores the depth. |
| Parser.TokenParser.ParseSuffixList | src/tai42_skeleton/authz/token_free.py:688-709 | The suffixes of a term, as a loop: the method succeeds exactly when the grammar's parse exists and fits the tokens and depth left, returns that parse, stops at its last token, spends exactly its tokens and restores the depth. |
| Parser.TokenParser.ParsePrimaryTerm | src/tai42_skeleton/authz/token_free.py:724-752 | Literals, variables, fields and keywords: the method succeeds exactly when the grammar's parse exists and fits the tokens and depth left, returns that parse, stops at its last token, spends exactly its tokens and restores the depth. |
| Parser.TokenParser.ParseOperatorTerm | src/tai42_skeleton/authz/token_free.py:754-778 | Parentheses, arrays, objects and the bare dot: the method succeeds exactly when the grammar's parse exists and fits the tokens and depth left, returns that parse, stops at its last token, spends exactly its tokens and restores the depth. |
| Parser.TokenParser.ParseEntryList | src/tai42_skeleton/authz/token_free.py:780-796 | Object entries, as a loop: the method succeeds exactly when the grammar's parse exists and fits the tokens and depth left, returns that parse, stops at its last token, spends exactly its tokens and restores the depth. |
| Parser.TokenParser.ParseIdentifier | src/tai42_skeleton/authz/token_free.py:798-823 | Keyword literals and builtin calls, by name and arity: the method succeeds exactly when the grammar's parse exists and fits the tokens and depth left, returns that parse, stops at its last token, spends exactly its tokens and restores the depth. |
| Parser.TokenParser.ParseArgumentList | src/tai42_skeleton/authz/token_free.py:806-815 | Arguments separated by semicolons, as a loop: the method succeeds exactly when the grammar's parse exists and fits the tokens and depth left, returns that parse, stops at its last token, spends exactly its tokens and restores the depth. |
| Parser.TokenParser.ParseInterpolations | src/tai42_skeleton/authz/token_free.py:731-734 | The bodies of a string's interpolations, as a loop: the method succeeds exactly when the grammar's parse exists and fits the tokens and depth left, returns that parse, stops at its last token, spends exactly its tokens and restores the depth. |
| Parser.TokenParser.ParseHole | src/tai42_skeleton/authz/token_free.py:825-834 | One interpolation body, lexed and parsed under the same budget: the method succeeds exactly when the grammar's parse exists and fits the tokens and depth left, returns that parse, stops at its last token, spends exactly its tokens and restores the depth. |
| SubMcpRouter.SubMcpAppRouter.RegisterSubMcpApp | src/tai42_skeleton/app/sub_mcp_app.py:202-221 | Refuses a malformed slug or transport untouched; otherwise drops the slug's app, binds the new configuration under a fresh global token and hands back the lifespan it displaced. |
| SubMcpRouter.SubMcpAppRouter.PopSlugLocked | src/tai42_skeleton/app/sub_mcp_app.py:229-241 | Takes one slug out of every map, routes and tokens included, leaves every other slug and the generation alone, and returns its lifespan. |
| SubMcpRouter.SubMcpAppRouter.ResetAll | src/tai42_skeleton/app/sub_mcp_app.py:294-302 | Clears everything but the generation, which it bumps, and returns all lifespans. |
| SubMcpRouter.SubMcpAppRouter.LookUp | src/tai42_skeleton/app/sub_mcp_app.py:427-430 | A cached answer, even a cached absence, is the app of the configuration registered now; otherwise the slug is reported registered or unknown as it is. |
| SubMcpRouter.SubMcpAppRouter.CaptureBuild | src/tai42_skeleton/app/sub_mcp_app.py:469-475 | A hit is current and an absence real; what a build captures is what publication asks for, so a build with nothing in between would be recorded and served. |
| SubMcpRouter.SubMcpAppRouter.PublishBuild | src/tai42_skeleton/app/sub_mcp_app.py:479-488 | Records a build exactly when its token is still the slug's, and keeps cache, registrations and lifespans coherent. |
| RouterMachine.RunKeepsInvariant | src/tai42_skeleton/app/sub_mcp_app.py:202-496 | Over every interleaving of requests, builds, failures, cancellations, registrations and resets, the state stays coherent and every lifespan placed. |
| RouterMachine.CacheServesCurrentRegistration | src/tai42_skeleton/app/sub_mcp_app.py:213-241 | In every reachable state a cached slug is registered, its app was built from exactly the configuration registered now, and it has a recorded lifespan unless it is a stdio server. |
| RouterMachine.AnswersComeFromCurrentRegistration | src/tai42_skeleton/app/sub_mcp_app.py:422-496 | A request is answered with an app only if that app was built from what the slug is registered as at that moment. |
| RouterMachine.RegisteredByHistory | src/tai42_skeleton/app/sub_mcp_app.py:202-241 | What is registered after any run, by its history: a slug, as a configuration, exactly when its last accepted registration, direct or from the store, was as that one and neither its removal nor a reset came after; other slugs are nothing to it. |
| RouterMachine.UnknownByHistory | src/tai42_skeleton/app/sub_mcp_app.py:427-430 | A lookup reports a slug unknown exactly when no registration of it stands, so after its removal and after every reset. |
| RouterMachine.UndisturbedBuild | src/tai42_skeleton/app/sub_mcp_app.py:454-496 | A request that takes the lock with nothing in between builds what its slug is registered as, answers it, and leaves it cached with its lifespan recorded and the lock free. |
| RouterMachine.RequestsGoOn | src/tai42_skeleton/app/sub_mcp_app.py:422-452 | Where a request goes from the fast path and from the store's answer. |
| RouterMachine.LifespansConserved | src/tai42_skeleton/app/sub_mcp_app.py:202-335 | After any run every entered lifespan is in exactly one place, an in-flight build, the recorded stacks, or one closer's hands, and nothing else is anywhere. |
| RouterMachine.NextStepLosesNothing | src/tai42_skeleton/app/sub_mcp_app.py:202-496 | Each step moves a lifespan only to that step's one destination: none is overwritten where it was recorded, and one given to a closer is never given to another. |
| RouterMachine.StepMoves | src/tai42_skeleton/app/sub_mcp_app.py:213-335 | Where every lifespan is after a step, exactly, from where it was before. |
| RouterMachine.TokensNeverRepeat | src/tai42_skeleton/app/sub_mcp_app.py:161-171 | A token issued by some moment of a run, if held later, is held by the same slug for the same configuration, whatever resets and registrations lie between. |
| RouterMachine.ChangesAdvance | src/tai42_skeleton/app/sub_mcp_app.py:213-241 | Registration, removal and reset keep the registry coherent and never reissue a token to another configuration. |
| RouterMachine.PublishKeepsSound | src/tai42_skeleton/app/sub_mcp_app.py:479-488 | Publication keeps the invariant because only the holder of the build lock adds to the cache. |
| FleetConvergence.NoLostUpdate | src/tai42_skeleton/app/bus.py:592-634 | No lost update: in every interleaving of connect, sever, broadcast, delivery, applies and failures, a worker on a live channel whose last reload succeeded and whose inbox is drained has loaded a version at least as new as every one broadcast to it, its own broadcasts included. |
| FleetConvergence.SettledWorkersAreUpToDate | src/tai42_skeleton/app/lifecycle.py:309-341 | In particular a worker past its resync, with no reload failed since it subscribed, needs nothing more. |
| FleetConvergence.CountedMeansResynced | src/tai42_skeleton/app/bus.py:603-613 | A worker is in the census only once a resync attempt of its own has ended, and is ready for work if that attempt succeeded. |
| FleetConvergence.CountedAcrossReconnect | src/tai42_skeleton/app/bus.py:738-750 | A worker that loses its subscription stays in the census, until it advertises itself again, exactly if it was in it, the teardown failed to delete its key, and no expiry or later teardown has removed it. |
| FleetConvergence.CountingStep | src/tai42_skeleton/app/bus.py:603-634 | Exactly which steps change whether a worker is in the census. |
| FleetConvergence.ResyncingFirstLosesUpdates | src/tai42_skeleton/app/bus.py:547-556 | The order carries the result: with the resync before the subscription there is a run that loses an update. |
| FleetConvergence.LoadedNeverFalls | src/tai42_skeleton/app/lifecycle.py:378-397 | No step takes a worker back to an older version. |
| FleetConvergence.ReconnectConverges | src/tai42_skeleton/app/bus.py:585-634 | A connection with nothing in between leaves the worker subscribed, with an empty inbox, at the version persisted now and in the census, and marked behind exactly if its resync failed. |
| FleetConvergence.OpConverges | src/tai42_skeleton/app/bus.py:686-733 | Taking and applying an op of another worker leaves this one at the version persisted now, or where it was and behind if the apply failed. |
| FleetConvergence.OthersOpsAreDropped | src/tai42_skeleton/app/bus.py:686-704 | An op that does not concern a worker, its own included, leaves the inbox and changes nothing else. |
| FleetConvergence.OwnApplyLoads | src/tai42_skeleton/app/lifecycle.py:378-397 | A worker's own apply loads the version persisted now, unless it fails, and then changes nothing. |
| FleetConvergence.BroadcastReaches | src/tai42_skeleton/app/bus.py:330-347 | A broadcast reaches the inbox of every worker on a live channel and of no other. |
| FleetConvergence.SeveredWorkersHearNothing | src/tai42_skeleton/app/bus.py:536-583 | Nothing sent while a channel is severed is ever in its worker's inbox: only the resync of the next connection makes up for it. |
| FleetConvergence.RunKeepsInvariant | src/tai42_skeleton/app/bus.py:585-634 | Every frame broadcast under a worker's current subscription is loaded, waiting in its inbox, or covered by the reload in progress. |
| FleetReplies.VerdictMeaning | src/tai42_skeleton/app/bus.py:207-216 | The verdict on a worker exists exactly when it sent a terminal reply, and is a failure exactly when one of them failed. |
| FleetReplies.FailureSurvives | src/tai42_skeleton/app/bus.py:207-216 | A consumed failure survives any later reply of the same worker, unchanged. |
| FleetReplies.VerdictContent | src/tai42_skeleton/app/bus.py:408-411 | What a verdict says is what one reply says, payload and error each as itself: the first failure, or without any failure the last terminal reply. |
| FleetReplies.ReportMeaning | src/tai42_skeleton/app/bus.py:355-436 | Exactly which workers are reported applied or failed, and what a departed, timed-out or missing one means of its ack and presence. |
| WorkerBus.MergeTerminal | src/tai42_skeleton/app/bus.py:207-216 | Folds one terminal reply in: other workers keep their verdicts, and a failure is never replaced. |
| WorkerBus.Collect | src/tai42_skeleton/app/bus.py:355-406 | The loop consumes polls exactly until every worker is terminal, the deadline passes or the channel fails, and reports one final verdict per expected worker over what it consumed. |
| WorkerBus.Bus.ValidateLocalTargets | src/tai42_skeleton/app/bus.py:465-477 | The caller supplies its own result exactly when it is itself addressed. |
| WorkerBus.Bus.LocalPublish | src/tai42_skeleton/app/bus.py:455-463 | Without a bus a target on another process is refused; otherwise a validated publish reports exactly the addressed workers of a fleet of one, and is ok exactly when the caller's own apply did not fail. |
| WorkerBus.Bus.RemintOriginAfterFork | src/tai42_skeleton/app/bus.py:260-276 | After the re-mint a parent acts on its forked child's ops as on any other worker's; under the parent's own origin it would skip every one. |
| WorkerBus.Bus.Publish | src/tai42_skeleton/app/bus.py:295-353 | Refusals exactly as documented; a reachable report holds one entry for exactly the targets, or else for the census and this worker, this worker's says just what its own apply did, and the others are the collection of the consumed replies. |
| WorkerBus.Bus.HandleOp | src/tai42_skeleton/app/bus.py:686-733 | The callback runs exactly for another worker's op that addresses this one; if a reply is wanted the answers are an ack and then, unless it was cancelled, one terminal reply with what it returned or why it raised. |
| WorkerBus.OkMeansEveryCallbackCompleted | src/tai42_skeleton/app/bus.py:182-185 | If a reachable report is ok, every expected worker was addressed and ran its callback to the end without raising. |
| WorkerBus.ReportTellsWhatCallbacksDid | src/tai42_skeleton/app/bus.py:408-411 | An applied entry carries exactly what some execution of that worker's callback returned, a failed one why some execution failed, and a computed one neither. |
| WorkerBus.ConsumedFailureIsReported | src/tai42_skeleton/app/bus.py:182-185 | A failure that reached the publish in time is reported, and the report is not ok. |
| WorkerBus.TimelySuccessIsReported | src/tai42_skeleton/app/bus.py:355-406 | Replies from every expected worker, none failed and all in time, make the report ok. |
| PolicyStore.GrantsNeverOutliveTheirRoutes | src/tai42_skeleton/access_control/store.py:383-475 | In every interleaving of mints, edits, deletions, mappings of unmapped urls and one removal at a time, each with its row locks, every concrete scope of a committed policy has a committed, non-public route. |
| PolicyStore.RunKeepsInvariant | src/tai42_skeleton/access_control/store.py:178-560 | The same with what it rests on: validated grants pin a live row per scope, policy rows have one writer, and a cascade reaches every policy that no kept row backs. |
| PolicyStore.ValidatedRowsPin | src/tai42_skeleton/access_control/store.py:531-560 | Share-locking the validated rows pins a live route for each concrete scope asked for. |
| PolicyStore.DeleteRowKeeps | src/tai42_skeleton/access_control/store.py:313-319 | A row under a share lock is not deleted, so what a grant pinned stays pinned. |
| PolicyStore.CheckAndStripKeeps | src/tai42_skeleton/access_control/store.py:202-210 | When the cascade starts, or is found unneeded, every policy that lists the scope is in its reach or backed by a row that stays. |
| PolicyStore.CommitRemovalIsSafe | src/tai42_skeleton/access_control/store.py:292-334 | The removal's commit deletes no route that a policy it leaves alone still needs. |
| PolicyStore.PolicyWriteKeeps | src/tai42_skeleton/access_control/store.py:429-475 | Committing pinned scopes, or the very scopes the locked row has, keeps every invariant. |
| PolicyStore.PolicyRowStep | src/tai42_skeleton/access_control/store.py:383-475 | What every step does to a user's policy row: committing an edit gives it the scopes asked for, or its own if none were; committing a validated mint of an absent user gives it the scopes asked for; a deletion removes it, a cascade takes its scope from it; no other step changes it. |
| PolicyStore.RouteRowStep | src/tai42_skeleton/access_control/store.py:158-334 | What every step does to a url's mapping: only adding it, lifting a public pin and a removal's commit change it. |
| PolicyStore.EditCommits | src/tai42_skeleton/access_control/store.py:429-475 | An edit, begun anywhere and committed after any other steps, gives its user the scopes it asked for, or leaves the row as it stands then, and touches no other row. |
| PolicyStore.LockedRowStays | src/tai42_skeleton/access_control/store.py:447-451 | Nobody else changes a row while an edit holds its lock. |
| PolicyStore.UndisturbedEdit | src/tai42_skeleton/access_control/store.py:429-475 | And it gets there: begun with the row free and live rows for its scopes, the edit's statements end with exactly its scopes in the row and no lock held. |
| PolicyStore.UndisturbedRemoval | src/tai42_skeleton/access_control/store.py:292-334 | The statements of a scope's removal, or of its last url's, end with every row of the scope gone, the scope in no policy, and nothing else changed. |
| PolicyStore.UpsertSafety | src/tai42_skeleton/access_control/store.py:158-176 | The upsert can also re-point a mapped url: that is safe exactly when the old scope has another url, or no policy lists it. |
| PolicyStore.UpsertLosesARoute | src/tai42_skeleton/access_control/store.py:158-176 | A run that fails it: a scope mapped to one url and granted; re-pointing the url leaves the policy with a scope no route carries. |
| PolicyStore.ConcurrentRemovalsSafety | src/tai42_skeleton/access_control/store.py:198-210 | Two removals in flight do not see each other: both find the scope in use, and committing both is safe exactly when a third url is left or no policy lists it. |
| PolicyStore.ConcurrentRemovalsLoseARoute | src/tai42_skeleton/access_control/store.py:198-210 | A run that fails it: a scope mapped to two urls and granted; each removal finds the scope in use, and both leave the policy with a scope no route carries. |
| PolicyStore.UnpinnedRemovalSafety | src/tai42_skeleton/access_control/store.py:194-210 | A url removal reads the scope before it deletes by url: if the url is mapped anew in between, it is safe exactly when the row still has the scope that was read, or its scope has another url, or no policy lists its scope. |
| PolicyStore.UnpinnedRemovalLosesARoute | src/tai42_skeleton/access_control/store.py:194-210 | A run that gets there: read while public, unpinned, mapped to a scope, the scope granted; the delete then leaves the policy with a scope no route carries. |
| PolicyCache.CompletedMutationsAreSeen | src/tai42_skeleton/access_control/policy.py:51-105 | Freshness: whatever readers, writers, evictions and other workers do, `get_policy` returns a committed row at least as recent as every mutation of that user complete when the call began. |
| PolicyCache.RevokedKeysReadEmpty | src/tai42_skeleton/access_control/management.py:406-421 | Once the delete of a key's policy is complete, every later read finds no policy, unless the row is written again. |
| PolicyCache.ReadsReturnCommits | src/tai42_skeleton/access_control/management.py:380-421 | The same over the run's own actions: `get_policy` returns what some commit of that user wrote, or nothing before the first, and none older than a commit whose bump had come when the call began. |
| PolicyCache.BumpingFirstServesStaleRows | src/tai42_skeleton/access_control/management.py:380-385 | The write-then-bump order carries the result: bumping first leaves the old row in the new slot, to be served after the mutation completes. |
| PolicyCache.MutationKeeps | src/tai42_skeleton/access_control/management.py:406-407 | A commit or a bump leaves every call in progress and every cache slot as good as it was. |
| PolicyCache.CallStaysFresh | src/tai42_skeleton/access_control/policy.py:61-94 | A call in progress stays above whatever was settled when it began, through every later step. |
| PolicyCache.PolicyEnforcer.GetPolicyAt | src/tai42_skeleton/access_control/policy.py:61-74 | A hit is served as cached; a miss reads the row as it stands and keeps it under the version asked for. |
| PolicyCache.UndisturbedCallIsGetPolicyAt | src/tai42_skeleton/access_control/policy.py:45-74 | The steps that the interleavings are made of, taken with nothing in between, are that method on the worker's own slots: same row, same new cache, and no other slot touched. |
| PathCanon.CanonicalizePath | src/tai42_skeleton/access_control/path_canon.py:50-68 | The loops refuse exactly the malformed paths and otherwise compute the canonical path of the segment-stack reference. |
| PathCanon.ResolutionRules | src/tai42_skeleton/access_control/path_canon.py:57-68 | The rules that fix the reference: empty and dot pieces are dropped, a dot-dot takes the plain segment before it away or at the root nothing, plain segments are kept. |
| PathCanon.CanonicalIsIdempotent | src/tai42_skeleton/access_control/path_canon.py:29-68 | Canonicalization is idempotent, and keeps the segments; the canonical form of a well-formed path holds no residual escape. |
| PathCanon.CanonicalForm | src/tai42_skeleton/access_control/path_canon.py:57-68 | A path written from plain segments is canonical exactly when it is well formed. |
| PathCanon.TrailingSlashIsDropped | src/tai42_skeleton/access_control/path_canon.py:57-68 | A trailing slash makes no difference. |
| PathCanon.UnderPrefixIsSegmentPrefix | src/tai42_skeleton/access_control/path_canon.py:71-75 | On canonical paths the prefix test is the prefix order on segments, for any prefix but the root. |
| PathCanon.UnderRoot | src/tai42_skeleton/access_control/path_canon.py:71-75 | The root is a prefix of itself only. |
| GateSettings.OverlapMeansCommonDescendant | src/tai42_skeleton/access_control/settings.py:13-16 | Two prefixes overlap exactly when some path lies under both, for arbitrary strings. |
| GateSettings.Validate | src/tai42_skeleton/access_control/settings.py:188-282 | The validation loops accept exactly the settings whose families are disjoint, absolute, canonical and off the control plane as documented. |
| GateSettings.AllowedEntriesAccepted | src/tai42_skeleton/access_control/settings.py:201-214 | Accepts exactly absolute entries under no always-public prefix. |
| GateSettings.OperationalEntriesAccepted | src/tai42_skeleton/access_control/settings.py:220-249 | Accepts exactly canonical absolute entries that overlap no always-public prefix and, when acknowledged, stay off the control plane. |
| GateSettings.PublicPatternsAccepted | src/tai42_skeleton/access_control/settings.py:268-282 | Accepts exactly patterns that match neither probe of any reserved prefix. |
| GateSettings.ReservedIsNeverAlwaysPublic | src/tai42_skeleton/access_control/settings.py:188-194 | On accepted settings no path is both reserved and always public. |
| ResourceResolution.ResolveResourceIds | src/tai42_skeleton/access_control/verifier.py:169-310 | The found-id set across all tiers, loops included, is the reference resolution of the canonical path. |
| ResourceResolution.ResolvedIds | src/tai42_skeleton/access_control/verifier.py:169-310 | Exactly which ids a path resolves to: every protected id a stored mapping gives it, by its own form, its normalized form or a matching pattern, and the public one when the path is not reserved and is mapped public, matches a public pattern, or, with nothing mapped, falls back. |
| ResourceResolution.ReservedPathsNeverResolvePublic | src/tai42_skeleton/access_control/verifier.py:236-251 | For accepted settings and any route table, patterns, method and path, a reserved path never resolves to the public id. |
| ResourceResolution.ResolutionIsCanonical | src/tai42_skeleton/access_control/verifier.py:172-188 | Resolution depends on the canonical form of a path only. |
| ResourceResolution.MethodlessResolutionHolds | src/tai42_skeleton/access_control/verifier.py:261-308 | Asking without a method is the stricter question: its answer, if any, is the answer under every method. |
| ResourceResolution.PatternIdsMeaning | src/tai42_skeleton/access_control/verifier.py:223-234 | A pattern tier contributes exactly the mapped ids of the templates whose patterns match. |
| ResourceResolution.ProtectedMappingsAreNeverHidden | src/tai42_skeleton/access_control/verifier.py:206-211 | Deny wins: a protected mapping by a dynamic pattern keeps a path from being public alone. |
| AccessPolicies.EffectiveScopesIntersect | src/tai42_skeleton/access_control/backend.py:50-63 | Attenuation is intersection, with the wildcard as everything on both sides: the capped list authorizes exactly what key and owner both authorize. |
| RoleLevels.BuildIndex | src/tai42_skeleton/access_control/role_gate.py:112-132 | The index loops build the reference index, or refuse a malformed registered path. |
| RoleLevels.KeyEachMethod | src/tai42_skeleton/access_control/role_gate.py:128-130 | A concrete route is keyed under each method it is served on, HEAD included. |
| RoleLevels.ResolutionNamesARegisteredRoute | src/tai42_skeleton/access_control/role_gate.py:151-181 | Resolution names a registered route that serves the request by its own path or template, and finds none only when none does. |
| RoleLevels.ResolutionPrecedence | src/tai42_skeleton/access_control/role_gate.py:151-181 | Which one: the last registered concrete route that serves the request, or, where none does, the first template that does. |
| RoleLevels.HeadRidesWithGet | src/tai42_skeleton/access_control/role_gate.py:99-109 | HEAD is resolved wherever GET is. |
| RoleLevels.GrantMapAdmits | src/tai42_skeleton/access_control/role_gate.py:58-81 | The tag loop admits exactly when some tag carries the level the method's action asks for; fenced and secret routes open for none. |
| RoleLevels.RouteAllowed | src/tai42_skeleton/access_control/role_grants.py:112-137 | When a route is allowed, in the words of the levels: a fenced or secret one to an admin principal only; any other to a governing admin, to a policy with no role, or to a role with "write" on a tag of it, or "read" for a reading method. |
| RoleLevels.ReadersOnlyRead | src/tai42_skeleton/app/route_registry.py:71-89 | A governed, non-admin role without a "write" level lets its holders do nothing but GET, HEAD and OPTIONS, in any letter case. |
| RoleLevels.WritersDoAll | src/tai42_skeleton/app/route_registry.py:71-89 | "write" on a tag of a route that is not fenced opens every classified method of it. |
| RoleLevels.RouteUndecided | src/tai42_skeleton/app/route_registry.py:75-89 | The decision fails, which is a denial, exactly when a role would decide and the method is unclassified. |
| RoleLevels.MoreGrantsOpenMore | src/tai42_skeleton/access_control/role_grants.py:120-137 | Raising a role's levels never closes a route to its holders. |
| HttpGate.ReservedPathsNeedIdentity | src/tai42_skeleton/access_control/middleware.py:69-188 | On accepted settings a reserved path is reached only with a verified credential that has a policy. |
| HttpGate.OwnersCapTheirKeys | src/tai42_skeleton/access_control/backend.py:169-182 | An owned key is never admitted to a protected resource that its owner's current scopes, or its own, do not cover. |
| HttpGate.VerifiedAdmission | src/tai42_skeleton/access_control/middleware.py:69-188 | Exactly when a verified credential is admitted off the login surface: its policy is live, its owner, if it claims one, is live, both conditions render and are true of this request, the level allows the route, and key and owner both cover every protected resource; an unmapped path is for admin principals and an authenticated-only one asks for none. |
| HttpGate.LoginSurfaceAdmission | src/tai42_skeleton/access_control/middleware.py:69-188 | The login surface admits everyone, an invalid credential is admitted nowhere else, and a path also listed raw as authenticated-only admits nobody there. |
| RouteTemplates.SynthesizedPathsStayOnTheirTemplate | src/tai42_skeleton/authz/check.py:62-86 | For a template whose parameters fill whole segments, a synthesized path that is not malformed is already canonical and fully matches that template's own matcher. |
| RouteTemplates.TemplatePieces | src/tai42_skeleton/access_control/role_gate.py:86-96 | The substitution pattern and the matcher's pattern read such a template alike, piece by piece. |
| RouteTemplates.SubstitutionMatches | src/tai42_skeleton/authz/check.py:73-86 | Whatever substitution makes of pieces both readings share, the matcher accepts. |
| RouteTemplates.SynthesizedPathsMatch | src/tai42_skeleton/access_control/role_gate.py:86-96 | For every template and arguments that make a path without braces and line ends, the path matches its own template exactly when no parameter of it has a converter other than `path`. |
| RouteTemplates.Readings | src/tai42_skeleton/access_control/role_gate.py:91-96 | The two patterns read a template alike exactly when it has no such parameter; if it has one, the matcher is left with a literal brace. |
| RouteTemplates.BracesSpellTheTemplate | src/tai42_skeleton/authz/check.py:62-86 | Braces in the path are a real exception: a value can spell such a template out, and the path made with it does match. |
| RouteTemplates.UnknownConvertersNeverMatch | src/tai42_skeleton/access_control/role_gate.py:86-96 | A converter other than `path`, anywhere in a template, stays literal in the matcher, so the template matches no path free of braces. |
| RouteTemplates.LeftoverBracesNeverMatch | src/tai42_skeleton/access_control/role_gate.py:91-96 | Any brace left over in the matcher's reading of a template keeps every brace-free path from matching. |
| ToolEdge.ToolEdgeRefinesGate | src/tai42_skeleton/authz/check.py:234-426 | Whatever the tool edge allows a caller that carries its scopes, request or fire, the HTTP edge admits for the same caller, method and path, except exactly where a login-surface path is also listed, raw, as authenticated-only. |
| ToolEdge.CarriedCallsExactly | src/tai42_skeleton/authz/check.py:234-426 | Off the login surface a call with its scopes is allowed exactly when the path is at the operation's own route, the HTTP edge admits it, it is mapped without a method and held, and a fire is bound to its key with conditions that need no token; the guard's waivers for authenticated-only paths and for an admin on an unmapped path are none for tools. |
| ToolEdge.AllowedCallsRunOnTheirRoute | src/tai42_skeleton/authz/check.py:89-107 | An allowed call's path resolves, under the operation's method, to a route registered at the operation's own template: one that resolves elsewhere, or nowhere, is never allowed. |
| ToolEdge.FencedTemplatesAreAdminOnly | src/tai42_skeleton/authz/check.py:89-107 | So off the login surface an operation whose template is registered only fenced or secret is allowed to admin principals only. |
| ToolEdge.LoginSurfaceCallsExactly | src/tai42_skeleton/authz/check.py:272-282 | On the login surface a call is allowed exactly when it is at its own route. |
| ToolEdge.AllowedCallsAtTheGate | src/tai42_skeleton/authz/check.py:234-426 | For every external caller, whatever scopes it carries: what the tool edge allows is admitted at the HTTP edge exactly when, on the login surface, the path is not also listed raw as authenticated-only, and off it, the caller's policy, condition and resources stand with the scopes the HTTP edge decides. |
| ToolEdge.RequestsCarryTheirScopes | src/tai42_skeleton/authz/identity.py:69-83 | Every caller a request binds carries the scopes the backend decided, whatever path the request authenticated at. |
| ToolEdge.RequestsToolCallsRefineGate | src/tai42_skeleton/access_control/middleware.py:233-242 | So a request's tool calls are never easier than its own requests, but for the login-surface exception. |
| ToolEdge.SpelledLoginPathsAreStricterAtTheGate | src/tai42_skeleton/access_control/settings.py:201-214 | Accepted settings reach the exception through another spelling of a login path. |
| ToolEdge.ToolEdgeIsNeverEasier | src/tai42_skeleton/authz/check.py:180-231 | On accepted settings, and for operations whose parameters fill whole segments, the exception cannot arise. |
| ToolEdge.PinnedAuthorizationAuthenticates | src/tai42_skeleton/authz/check.py:290-426 | Off the login surface, the backend authenticates what the pinned decision allows, for a caller that stands, with the scopes it decides itself. |
| ToolEdge.UncarriedScopesEscapeTheOwner | src/tai42_skeleton/authz/check.py:338-348 | A direct call of the check with an owned key and no effective scopes can allow what the route refuses. |
| ToolEdge.UncarriedScopesAtTheGate | src/tai42_skeleton/authz/check.py:338-348 | Exactly when it does not: the HTTP edge agrees with such a call, off the login surface, exactly when the owner covers every protected resource of the path, or the path is authenticated-only, and the key's own condition is also true of the attenuated scopes. |
| FireDecisions.EvaluableConditionsIgnoreClaims | src/tai42_skeleton/authz/check.py:111-128 | A condition the analyser accepts is decided alike, by the first output of its tree on the jq value of the context, on any two contexts that differ in claims beyond the owner. |
| FireDecisions.FiresIgnoreOtherClaims | src/tai42_skeleton/authz/check.py:350-402 | A fire's every dispatch is decided alike whatever its claims hold beyond the owner. |
| FireDecisions.FireAllowancesHoldForTheFullCredential | src/tai42_skeleton/authz/check.py:350-402 | What the tool edge allows a fire, on the owner reference alone, the HTTP edge admits for the credential with the full claims, on the same method and path, but for the login-surface exception. |
| Projection.ProjectRoutes | src/tai42_skeleton/access_control/projection.py:551-568 | The route loops return exactly the reachable, admitted doors of the concrete registered routes, and fail exactly when a condition does not render or some probe of a reachable route faults. |
| Projection.ProjectMethods | src/tai42_skeleton/access_control/projection.py:565 | The methods of one route that the probes admit, or a fault exactly when some probe faults. |
| Projection.DoorsAreShown | src/tai42_skeleton/access_control/projection.py:555-568 | A door is projected exactly when a concrete registered route has it and both probes answer yes. |
| Projection.ShownDoorsAreOpen | src/tai42_skeleton/access_control/projection.py:348-445 | When the admin shortcut skips no owner, every shown door is admitted by backend and guard, the method-less resolution included, except exactly where a login-surface path is also listed as authenticated-only. |
| Projection.ShownDoorsAtTheGate | src/tai42_skeleton/access_control/projection.py:502-569 | For every caller the backend lets in somewhere: a shown door is admitted exactly when, on the login surface, the path is not also listed raw as authenticated-only, and off it, an owner the admin shortcut skipped itself admits, by its condition and its role's level. |
| Projection.DoorsShownExactly | src/tai42_skeleton/access_control/projection.py:348-445 | Nothing open is hidden either: off the login surface an admin is shown exactly the doors within reach, and anyone else exactly those of them that the gate admits. |
| Projection.DoorsFaultExactly | src/tai42_skeleton/access_control/projection.py:420-445 | The projection fails at a door exactly when a condition that is reached errs, or the level is left undecided. |
| Projection.ShownMountsAtTheGate | src/tai42_skeleton/access_control/projection.py:592-602 | A shown sub-MCP mount is admitted at the path probed exactly so, and besides, if only the carve-out of its bare root showed it, by the mapping of the probed path or its absence. |
| Projection.MountsShownExactly | src/tai42_skeleton/access_control/projection.py:592-602 | And the mounts shown are those whose root is within reach, to an admin or to a viewer whom the backend lets through at the path probed. |
| Projection.CarvedMountsAreOvershown | src/tai42_skeleton/access_control/projection.py:592-602 | Accepted settings reach that exception: a mount whose bare root is authenticated-only is shown, and the probed path refuses. |
| Projection.ProjectionRefinesGate | src/tai42_skeleton/access_control/projection.py:502-569 | On accepted settings a projected door of a canonically registered route is open exactly when it is on the login surface or no admin shortcut skipped an owner that refuses. |
| Projection.FencedRoutesAtTheGate | src/tai42_skeleton/access_control/role_grants.py:112-118 | Off the login surface the gate admits only an admin principal to a fenced or secret route, and a guest just where the path is mapped public alone. |
| Projection.FencedRoutesElsewhere | src/tai42_skeleton/access_control/role_grants.py:112-118 | Nobody but an admin is allowed the tool of such a route, whatever scopes the caller carries, or shown its door. |
| Projection.UnstoredOwnersAreOvershown | src/tai42_skeleton/access_control/projection.py:513-536 | An instance of that failure on accepted settings: a wildcard key whose owner is claimed but not stored is shown as admin past its owner's condition. |
| RegexSampler.FirstMemberChar | src/tai42_skeleton/access_control/projection.py:265-273 | The member loop returns the sample of the first member that decides. |
| RegexSampler.SeqSampleAccepted | src/tai42_skeleton/access_control/projection.py:321-328 | For patterns without anchors, flags or unknown categories whose repeats can repeat once, any string the sampler emits is in the pattern's language. |
| RegexSampler.NodeSampleAccepted | src/tai42_skeleton/access_control/projection.py:287-318 | The same for every node. |
| RegexSampler.OutsideIsOutside | src/tai42_skeleton/access_control/projection.py:276-284 | A candidate taken for a negated set is matched by none of its members. |
| RegexSampler.FullMatchNeverRejects | src/tai42_skeleton/access_control/projection.py:331-342 | In that fragment the final full match never rejects a sample. |
| RegexSampler.EmptyRepeatsAreMissampled | src/tai42_skeleton/access_control/projection.py:296-301 | A repeat that may not repeat at all is sampled as its body once all the same, and the pattern accepts that exactly when it is empty. |
| ResourceResolution.FallbacksSpareTheControlPlane | src/tai42_skeleton/access_control/verifier.py:253-308 | Neither fallback opens the control plane: an unmapped API path resolves to nothing under every method. |
| PolicyStore.CommittedRemovalRemoves | src/tai42_skeleton/access_control/store.py:292-334 | What a cascading removal commits: its rows are gone, the scope is gone from every policy no later route backs, and nothing else has changed. |
| RoleLevels.WritersMayRead | src/tai42_skeleton/access_control/role_gate.py:51-81 | A level that admits a writing method on a route admits every reading one. |

## Left out

- Lexer.Budget.Descend: promises the restored depth to callers on success only, because the code counts a level before it refuses it and unwinds nothing on a refusal.
- WorkerBus.Bus.Publish: reports results by origin rather than as a list sorted by origin, and leaves out the report texts, because they carry no outcome.
- PolicyStore.GrantsNeverOutliveTheirRoutes: covers one removal in flight, no unpinning during it and no re-pointing upsert, because the code is unsafe beyond that; the exact conditions are separate lemmas.
- The compile step that precedes the analyser, and the texts and offsets of its refusals.
- jq beyond the fragment; inside it the arithmetic, comparison, lookup and builtin results are deterministic oracles of their inputs, and `//` suppresses errors of its left side as jq does.
- `restore_policy_body`, which skips validation on purpose, the carried key fingerprint of an edit, and the version history.
- The router's dispatch of a request into the app, its shutdown, which clears lifespans but not the cache, and freshness against the shared store.
- The retry loop of a build is a cycle of steps in `RouterMachine`, not a loop with a measure: the code leaves it unbounded.
- Redis, Postgres, Starlette, FastMCP and asyncio: they appear as steps, maps, row locks, inboxes and polls; cache limits appear as arbitrary eviction.
- The ack deadline of the reply collection, which changes only how long one poll waits, and the presence heartbeat's timing.
- Ops other than the configuration reload, and the handlers that run after one.
- Credential extraction, identity providers, key material, websockets' close frames, audit lines and context variables.
- Regular expressions in general: stored and configured patterns are predicates on paths, the automatic normalization is a function, and only route templates and the sampler's fragment have a language.
- Condition templates, the live context, role definitions and the clock are read from one snapshot, so the caches in front of them appear in `PolicyCache` only.
- The projection's tool, agent and pattern lists, which apply the same two probes to other paths, and its cache.
- The other checks of the settings object: the providers, the claim-link lifetimes and the compilation of patterns.
