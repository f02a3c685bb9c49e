# Verified models of the xiaowei agent

This project models five parts of the agent and proves what they promise. Where the program updates
state step by step, the model is a class or a method with a loop, tied to a function by its `ensures`;
the promises are proved about the functions. Where several activities overlap, the model is a machine
whose actions are the steps between two awaits, and the promises hold in every run.

## The models

**The `confirmed_readonly` guard.** `SqlTokens` says what the tokens of a text are, `SqlScanner` is the
in-place scanner, and `SqlTokensTheorems`, `SqlTokensContent` and `SqlTokensBytes` show what scanning
keeps: slicing, quoted content, byte ranges. `SqlTokenGrammar` is a grammar of the tokens that names no
scanning function, and says which texts are accepted and what the others are refused for.
`ReadonlyStatements` has the grammar twice, as a derivation relation and as the backtracking matcher,
and proves them equal. `StatementTargets` is the import-time check and the extraction from a match,
`StatementForms` says which rows keep their target rule in all their matches; `StatementList` is the
shipped table with `match_statement`, `StatementListTheorems`, `StatementListChecks` and
`StatementListExtraction` prove that the table passes the check and is unambiguous over all token
sequences, and `StatementObjects` says over the tokens which object a match extracts, and
`StatementLanguage` which token sequences each row matches. `SqlTree` resolves CTE names bottom-up and
top-down, `SqlGuard` is the whole decision, `SqlGuardMeaning` says what its single answers mean,
`SqlGuardTheorems` what an acceptance guarantees, and `SqlGuardVerdict` exactly which texts are accepted
and what the others are refused for. The parser, the hash and the Unicode tables are parameters; parse
trees are arbitrary trees, and the order of the tree walk is arbitrary.

**The worker.** `WorkerBook` has the bookkeeping as functions, `WorkerLoop` the object that updates it
in place. `WorkerLedger` puts a log of what happened beside the books, `WorkerAgreement` shows that
every step keeps both in agreement, `WorkerMachine` is the running worker with its actions (dispatcher
steps, finished attempts, reaps, the failure handler, stop, abort, time), and `WorkerRuns`,
`WorkerOrder` and `WorkerBackoff` say what holds in every state of every run. `WorkerOutcomes` says over
the outcomes of the attempts what a reap raises and leaves in the books. A worker that leaves has
something in flight exactly if it is cancelled a second time (`LeavesNothingIff`, `CancelledTwice`).

**The configuration service.** `ConfigResources` and `ConfigEdits` are the resources document and its
edits, over any sequence of them; `ConfigFields` says field by field what an edit takes and keeps, and
`ConfigSaves` the same of every file written in any run. `ConfigProtocol` is the machine of overlapping
operations with one lock, three files and an audit log in which every append and every file access may
fail before or after its effect; `ConfigSafety` and `ConfigTheorems` prove the protocol in every run,
and `ConfigService` is the object whose methods take the same steps. In `save_ai` and `save_feishu` a
contract error of the new document is not caught: the error escapes and only the start is on record. The
model keeps this as the answer `Raised`, so "an admitted operation whose audit and file work well leaves
its outcome on record" fails. `OutcomeMissing` is such an operation, with an empty key, and `OutcomeIff`
says for all operations when the outcome is there: the error takes a request that carries a secret the
contract rejects. The web bodies check the secret first
(`src/xiaowei_agent/interfaces/web_models.py:224` and `:232`), so only a caller inside the process gets
there. An operation may be cancelled at any await; a write it was waiting for goes on in its thread,
outside the lock. So an update can be lost (`UpdateLost`), although the service's own text
(`src/xiaowei_agent/application/integration_config_service.py:12-16`) says that its lock covers every
read-modify-write. `ConfigUpdates` says exactly when, over all runs (`NoUpdateLostIff`), that no run
without such a cancellation has it (`LockSuffices`), and what holds where it does not happen;
`ConfigCancellation` has the runs in which it does.

**Task lists and projections.** `TaskListing` and `TaskPaging` are the filtered pages and what a client
sees that follows the cursors while new tasks arrive. `StableRead` is the re-read loop under
interference; it re-reads the task only, and `OneMomentIff` says when that is enough for the rows of
other stores that a view shows too. `Doubling` and `ChannelDelays` are the capped exponential waits.

**Metric evidence.** `Rounding`, `KeyOrder`, `MetricEvidence` and `MetricTheorems` are the grouping
loop, the rounded summaries and what they keep of the rows; `MetricMeaning` says row by row what the
evidence tells. A flat trend does not mean equal figures: `FlatButApart` gives two values that round
apart while their difference rounds to nothing, `TrendIff` says exactly when the trend is flat, and
`FiguresApartIff` exactly when the figures differ, by one millionth where the trend is flat.

## What is assumed

- The tree walk of the parser library visits every node at and below its start and no other, in
  any order (`SqlGuard.Lawful`); the children of a WITH node are its CTEs.
- The task store raises the version on every change of a task and a deleted task does not come back
  (`StableRead.Versioned`); listed tasks stay in the list with their numbers, and new ones may stand
  anywhere between them, because numbers are drawn before the tasks are committed (`TaskPaging.Calls`).
- A wait takes at least its delay on the clock the worker reads (`WorkerMachine.Enabled`).
- Stored configuration files that can be read satisfy their contract, secrets included, because
  reading validates them (`ConfigProtocol.AllTyped`); every write of the model keeps this.
- Plan and ledger rows of a task are read from other stores while a projection is made, each at some
  moment between the two reads of the task (`StableRead.Loads`).

## Model

| member | source | states |
|---|---|---|
| Utf8.DecodeEncode | src/xiaowei_agent/governance/sql_tokens.py:205 | UTF-8 (section 3 of RFC 3629): decoding the encoding of a text gives the text back |
| Utf8.EncodeDecode | src/xiaowei_agent/governance/sql_tokens.py:205 | bytes that decode are the one encoding of their text: overlong forms, surrogates and values beyond U+10FFFF do not decode |
| Utf8.EncodeCharIs | src/xiaowei_agent/governance/sql_tokens.py:205 | each character takes as many bytes as its value needs, the first tells the number, and every further one carries six bits of the value |
| SqlTokensTheorems.LexIsTiling | src/xiaowei_agent/governance/sql_tokens.py:132-162 | the scanner gives exactly the tiling of the text: spans that are tokens of the grammar one by one, with only whitespace between them; any such tiling is the result, so it is unique |
| SqlTokensTheorems.TokenAgrees | src/xiaowei_agent/governance/sql_tokens.py:132-193 | a token is decided by its own characters and the one behind it: wherever a text agrees with them, the same token is read there |
| SqlTokensTheorems.StatementSlice | src/xiaowei_agent/governance/sql_tokens.py:81-87 | the slice from any statement token to the last one is accepted again and has the same statement tokens, shifted |
| SqlTokenGrammar.CharactersAgree | src/xiaowei_agent/governance/sql_tokens.py:93-110 | the characters of words, the blanks and the refused characters, listed one by one |
| SqlTokenGrammar.GrammarIff | src/xiaowei_agent/governance/sql_tokens.py:132-193 | a token of the scan is a token of the grammar and the other way round; the grammar names no scanning function: line comments up to the line break, block comments that are no hints up to the first `*/`, well-formed quoted texts, maximal words, single other ASCII characters |
| SqlTokenGrammar.AcceptedIff | src/xiaowei_agent/governance/sql_tokens.py:196-223 | a text is accepted with given tokens exactly if it has no byte order mark, is made of them with white space between, has nothing but comments behind a `;`, exports to no file, and has content |
| SqlTokenGrammar.StopsIff | src/xiaowei_agent/governance/sql_tokens.py:100-193 | the scan stops inside the text exactly at the first place where no token of the grammar starts, for the reason this place shows: a hint, an open quote or comment, a refused character, other punctuation |
| SqlTokenGrammar.RefusedIff | src/xiaowei_agent/governance/sql_tokens.py:196-223 | for each reason, the texts refused for it, in the order of the checks |
| SqlTokenGrammar.NoHintStartsToken | src/xiaowei_agent/governance/sql_tokens.py:168-172 | no token of any text starts as a hint |
| SqlTokenGrammar.HintRefused | src/xiaowei_agent/governance/sql_tokens.py:168-172 | a text with a hint behind its first tokens is refused for the hint |
| SqlTokensContent.AcceptedCharacter | src/xiaowei_agent/governance/sql_tokens.py:100-162 | in accepted SQL every character is permitted and is whitespace or lies in a token; in words and symbols it is ASCII |
| SqlTokensContent.CutOff | src/xiaowei_agent/governance/sql_tokens.py:81-90 | what the statement leaves out of the text is whitespace, comments and at most one `;`, which then is the last significant token |
| SqlTokensContent.QuotedGrammar | src/xiaowei_agent/governance/sql_tokens.py:181-193 | a quoted token ends at the first position whose body is well formed (doubled quotes, escapes) and that no further quote follows, and only there |
| SqlTokensContent.ContentDoesNotInterfere | src/xiaowei_agent/governance/sql_tokens.py:181-223 | replacing the body of any string or quoted identifier by another well-formed body changes neither the verdict nor the sequence of token kinds |
| SqlTokensBytes.AcceptedByte | src/xiaowei_agent/governance/sql_tokens.py:93-162 | every byte of accepted SQL is space, tab, CR or LF or lies in a token; a non-ASCII byte lies in a string, a quoted identifier or a comment |
| SqlTokensBytes.ScanMeans | src/xiaowei_agent/governance/sql_tokens.py:196-223 | the verdict on bytes: too long beyond 65536 bytes, not UTF-8, or that of the text they encode, with its tokens as byte ranges |
| SqlTokensBytes.StatementMembers | src/xiaowei_agent/governance/sql_tokens.py:81-90 | the statement tokens are the recorded ones but for comments and a last `;` |
| SqlTokensBytes.TokenRanges | src/xiaowei_agent/governance/sql_tokens.py:62-79 | byte ranges are non-empty, ordered, disjoint, within the text and on UTF-8 character boundaries |
| SqlTokensBytes.StatementHasTokens | src/xiaowei_agent/governance/sql_tokens.py:81-90 | the statement of accepted SQL has a token and no `;` |
| SqlTokensBytes.StatementRescans | src/xiaowei_agent/governance/sql_tokens.py:196-223 | the same re-scan result on bytes: the cut-out statement is accepted and its byte ranges are the old ones minus the cut |
| SqlTokensBytes.ContentDoesNotInterfereInBytes | src/xiaowei_agent/governance/sql_tokens.py:196-223 | non-interference of quoted content for the whole function on bytes, within the size limit: the same reason of a refusal, or acceptance with the same kinds |
| SqlScanner.Scanner.Advance | src/xiaowei_agent/governance/sql_tokens.py:125-130 | consumes one permitted character; the byte offset stays the encoded length of the consumed prefix |
| SqlScanner.Scanner.LineComment | src/xiaowei_agent/governance/sql_tokens.py:164-166 | stops where the specified line comment ends, or reports the same refusal |
| SqlScanner.Scanner.BlockComment | src/xiaowei_agent/governance/sql_tokens.py:168-179 | stops where the specified block comment ends; a hint is refused as one, an open comment as unterminated |
| SqlScanner.Scanner.Quoted | src/xiaowei_agent/governance/sql_tokens.py:181-193 | stops at the end of the quoted token, or reports the refusal met on the way |
| SqlScanner.Scanner.Next | src/xiaowei_agent/governance/sql_tokens.py:139-161 | one step of the loop reads the token the grammar has at this place, with its kind |
| SqlScanner.Scanner.Run | src/xiaowei_agent/governance/sql_tokens.py:132-162 | the loop records exactly the specified tokens in bytes, or stops with the same reason |
| SqlScanner.OneStatement | src/xiaowei_agent/governance/sql_tokens.py:214-216 | the loop over significant tokens finds exactly the texts with a `;` before the end |
| SqlScanner.NoExport | src/xiaowei_agent/governance/sql_tokens.py:217-220 | the loop over neighbours finds exactly the texts that export to a file |
| SqlScanner.ScanSql | src/xiaowei_agent/governance/sql_tokens.py:196-223 | the in-place scanner and its checks, in their order, equal the specification `Scan` |
| ReadonlyStatements.DerivesBounded | src/xiaowei_agent/governance/readonly_statements.py:53-245 | a derivation never goes back and never past the tokens |
| ReadonlyStatements.MatchName | src/xiaowei_agent/governance/readonly_statements.py:97-111 | the cursor loop yields exactly the dotted names between the two part limits |
| ReadonlyStatements.MatchElement | src/xiaowei_agent/governance/readonly_statements.py:64-218 | for every element, position and captures: the yields are exactly the derivations of the declarative grammar |
| ReadonlyStatements.MatchSequence | src/xiaowei_agent/governance/readonly_statements.py:175-183 | the same for sequences of elements |
| ReadonlyStatements.MatchMany | src/xiaowei_agent/governance/readonly_statements.py:221-245 | the worklist yields exactly the positions reachable by repeating the body, each one once, and terminates although the body may match nothing |
| StatementTargets.MatchAccounts | src/xiaowei_agent/governance/readonly_statements.py:97-218 | every derivation captures only declared names and all required ones |
| StatementTargets.MatchFits | src/xiaowei_agent/governance/readonly_statements.py:97-172 | if each capture name is used by fitting elements only, every derivation captures values of the expected form |
| StatementForms.RowKeepsRuleIff | src/xiaowei_agent/governance/readonly_statements.py:429-482 | a row that passes the import-time check keeps its target rule in all its matches, over all inputs, exactly if every form it can capture last as its target fits; that is read off the row alone |
| StatementTargets.ExtractionIff | src/xiaowei_agent/governance/readonly_statements.py:429-482 | of a row that passes the import-time check, a match keeps the target rule exactly if what it captured as its target has the form the extraction reads |
| StatementTargets.CheckIff | src/xiaowei_agent/governance/readonly_statements.py:429-451 | the import-time check passes exactly the rows whose declared captures suit their rule: no object, one certain relation, an object that is never certain, or the inner query alone |
| StatementTargets.CheckOverlooksForms | src/xiaowei_agent/governance/readonly_statements.py:429-473 | the import-time check does not see forms: a row that captures its relation by a string passes, and its match extracts no object |
| StatementTargets.AtMostOneObject | src/xiaowei_agent/governance/readonly_statements.py:461-482 | a row that names its object in one way only extracts at most one object from any match |
| StatementList.MatchStatement | src/xiaowei_agent/governance/readonly_statements.py:485-495 | a result is the only match of the table; no result means that every match has a different rival, so none or several |
| StatementListTheorems.EntryAnnounced | src/xiaowei_agent/governance/readonly_statements.py:299-424 | which row can match a token sequence is decided by its first words alone |
| StatementListChecks.ShippedListChecked | src/xiaowei_agent/governance/readonly_statements.py:299-451 | every row of the shipped table passes the check, uses its capture names with fitting elements and names its object in one way only |
| StatementListChecks.FamiliesDistinct | src/xiaowei_agent/governance/readonly_statements.py:452-453 | no two rows of the shipped table have the same family |
| StatementListExtraction.CapturesDetermined | src/xiaowei_agent/governance/readonly_statements.py:299-424 | all matches of a row with a target capture the same values |
| StatementListExtraction.SameExtraction | src/xiaowei_agent/governance/readonly_statements.py:461-482 | two complete matches of a row extract the same |
| StatementListExtraction.ListUnambiguous | src/xiaowei_agent/governance/readonly_statements.py:485-495 | no token sequence has two different matches in the shipped table, over all token sequences |
| StatementListExtraction.MatchMeetsRule | src/xiaowei_agent/governance/readonly_statements.py:248-281 | every match of the shipped table obeys the target rule of its row, extracts at most one object, and this object is the one that the tokens name (`StatementObjects.Told`) |
| StatementListExtraction.MatchShipped | src/xiaowei_agent/governance/readonly_statements.py:485-495 | on the shipped table the function returns a match exactly when there is one, and what it extracts is told over the tokens: the last identifier of the dotted name is the object, the one before the database, the one before that the catalog, or the literal and the identifier behind FROM or IN |
| StatementListExtraction.RowTold | src/xiaowei_agent/governance/readonly_statements.py:455-482 | for each shipped row: a match extracts the one object its tokens name, with backticks removed and doubled ones made single, or the literal in its database, or nothing, or the byte range from the third token to the end |
| StatementLanguage.RowIff | src/xiaowei_agent/governance/readonly_statements.py:299-424 | each of the 31 shipped rows matches exactly the token sequences of its language, which is said over the tokens: words in any case, dotted names, literals, numbers, registered conditions |
| StatementLanguage.ListIff | src/xiaowei_agent/governance/readonly_statements.py:485-495 | so the shipped list matches exactly the token sequences of these languages |
| StatementLanguage.ConditionsTaken | src/xiaowei_agent/governance/readonly_statements.py:290-293 | the WHERE part is nothing, or one registered condition and any number of further ones behind AND |
| StatementObjects.LeavesOverTokens | src/xiaowei_agent/governance/readonly_statements.py:64-172 | what each element that matches words or single tokens takes, over the tokens: words in any case, symbols, plain literals, digits, allowed columns, a rest that is not empty |
| SqlTree.VisibleCtes | src/xiaowei_agent/governance/sqlguard.py:387-405 | the climb over the parents collects exactly the names that a top-down walk brings into scope |
| SqlTree.ScopeStep | src/xiaowei_agent/governance/sqlguard.py:395-405 | one level further down adds exactly the names the parent introduces for that child |
| SqlTree.UnboundIff | src/xiaowei_agent/governance/sqlguard.py:387-411 | a reference is unbound for the parent climb exactly when the top-down resolver lists it, at every nesting depth; the resolver leaves the clause itself in the outer scope, gives every other child the aliases of the clause, and each CTE those before it, plus itself if recursive |
| SqlTree.AroundClause | src/xiaowei_agent/governance/sqlguard.py:395-405 | outside its clause a statement sees all the names that the clause defines, the clause itself none of them |
| SqlTree.InsideClause | src/xiaowei_agent/governance/sqlguard.py:387-405 | CTE k of a clause sees exactly the outer scope and the CTEs before it, and itself only in a recursive clause: no later one and in a plain clause not its own name |
| SqlGuardTheorems.ReadsIff | src/xiaowei_agent/governance/sqlguard.py:408-411 | the relations read under a node are its table references that are no CTE references |
| SqlGuard.CollectRelations | src/xiaowei_agent/governance/sqlguard.py:414-440 | the walk loop equals its specification for any order of the tree walk |
| SqlGuardTheorems.CollectedCovers | src/xiaowei_agent/governance/sqlguard.py:414-440 | a successful walk met no write node and no refused construct anywhere, and collected exactly the objects of the unbound tables: the given database or else the default one, and the name, both in lower case |
| SqlGuardTheorems.CollectedRefuses | src/xiaowei_agent/governance/sqlguard.py:414-440 | the walk fails exactly when some node of the tree is refused |
| SqlGuardTheorems.VisitsFirstRefusal | src/xiaowei_agent/governance/sqlguard.py:419-439 | the error of the walk is that of the first refused node in its order |
| SqlGuard.ProveAst | src/xiaowei_agent/governance/sqlguard.py:443-505 | the tree route takes the specified route by root shape and first keyword |
| SqlGuard.ProveStatementList | src/xiaowei_agent/governance/sqlguard.py:596-611 | the list route resolves the extracted objects or walks the parsed inner query |
| SqlGuard.VerifyConfirmedReadonly | src/xiaowei_agent/governance/sqlguard.py:614-648 | the whole decision in its order: hash, scan, parse, tree or list, blocklist |
| SqlGuardTheorems.EstablishedJustified | src/xiaowei_agent/governance/sqlguard.py:495-611 | whatever is established rests on the tree of the statement, on the tree of the inner query of a list row, or on the objects of a list row |
| SqlGuardVerdict.EstablishedIff | src/xiaowei_agent/governance/sqlguard.py:614-648 | a text is proved exactly if its hash is the expected one, it scans, and its statement is of a provable shape over a part in which no node is refused, or is left to the list (unknown to the parser, or of a shape the tree route says nothing about) and in it, with objects that can be named or an inner query without a refused node |
| SqlGuardVerdict.AcceptedIff | src/xiaowei_agent/governance/sqlguard.py:614-648 | with an empty blocklist exactly the texts that can be proved are accepted, both ways; `BlocklistMonotone` says what a blocklist adds |
| SqlGuardVerdict.LeftIff | src/xiaowei_agent/governance/sqlguard.py:443-505 | which parsed statements the tree route leaves to the list |
| SqlGuardVerdict.ListProofIff | src/xiaowei_agent/governance/sqlguard.py:596-611 | which matches of the list are proved |
| SqlGuardVerdict.ListCodes | src/xiaowei_agent/governance/sqlguard.py:635-637 | a text left to the list and not in it is refused as writing exactly if its statement writes and is no mere command, else as not supported |
| SqlGuardVerdict.InnerQueryCodes | src/xiaowei_agent/governance/sqlguard.py:596-611 | an inner query that writes is refused as writing, any other one that is no query as not supported |
| SqlGuardVerdict.ParseCodes | src/xiaowei_agent/governance/sqlguard.py:566-579 | what the parse refuses a text for |
| SqlGuardVerdict.ExplainCode | src/xiaowei_agent/governance/sqlguard.py:469-493 | an EXPLAIN of something that writes is refused as writing, without a look at the list |
| SqlGuardVerdict.BlockedCode | src/xiaowei_agent/governance/sqlguard.py:641-643 | what the blocklist alone refuses is refused for a blocked object |
| SqlGuardVerdict.FirstMetFirst | src/xiaowei_agent/governance/sqlguard.py:644-648 | the proof lists the objects in the order in which they were first met |
| SqlGuardTheorems.AcceptedIsJustified | src/xiaowei_agent/governance/sqlguard.py:614-648 | an accepted text has the expected hash, scans, is justified by one of the three routes, and its proof lists each object once and no blocked one |
| SqlGuardTheorems.BlocklistMonotone | src/xiaowei_agent/governance/sqlguard.py:641-648 | a larger blocklist never turns a rejection into an acceptance, and rejects exactly the proofs that list one of its names |
| SqlGuardTheorems.ParsedTextIsStatement | src/xiaowei_agent/governance/sqlguard.py:590-593 | the analysed text, encoded, is the bytes from the first statement token to the last, and scanning it again gives the statement tokens |
| SqlGuardTheorems.InnerQueryIsStatement | src/xiaowei_agent/governance/readonly_statements.py:160-172 | the inner query of a match starts at the third token and ends with the statement, and scanning it again gives those tokens |
| SqlGuardTheorems.ProvedByTreeIff | src/xiaowei_agent/governance/sqlguard.py:469-505 | which trees are proved, as which family and over which objects, said over shapes and keywords |
| SqlGuardTheorems.RefusedBeforeParsing | src/xiaowei_agent/governance/sqlguard.py:581-587 | each reason of the scan becomes the refusal the source gives it |
| SqlGuardTheorems.TokensAreSpelled | src/xiaowei_agent/governance/readonly_statements.py:26-50 | the tokens that the list matches carry the text of their byte ranges |
| SqlGuardMeaning.ResolveIff | src/xiaowei_agent/governance/sqlguard.py:375-385 | an object is named exactly in the internal catalog: the given or default database and the name, in lower case and not empty; every other catalog is refused as external |
| SqlGuardMeaning.RefusalIff | src/xiaowei_agent/governance/sqlguard.py:414-440 | which nodes are refused on their own, and with which code |
| SqlGuardMeaning.ShowIff | src/xiaowei_agent/governance/sqlguard.py:443-466 | which SHOW statements are proved and what they read beyond their tree |
| SqlGuardMeaning.RouteIff | src/xiaowei_agent/governance/sqlguard.py:469-505 | which queries, descriptions and explanations are walked, from which node, as which family |
| SqlGuardMeaning.ParsedIff | src/xiaowei_agent/governance/sqlguard.py:566-579 | a text is parsed into a statement exactly if the parser finds one that counts; a syntax error gives none, everything else is refused |
| WorkerBook.PopKeepsPoppable | src/xiaowei_agent/application/worker.py:311-325 | taking one finished attempt out of flight leaves the others where they are |
| WorkerBook.KeptRaises | src/xiaowei_agent/application/worker.py:308-332 | the errors kept by the loop decide what is raised: the first fatal one, else a transient one |
| WorkerOutcomes.ReapRaises | src/xiaowei_agent/application/worker.py:308-332 | a reap raises the first integrity or other error in claim order, if some finished attempt ended with one; otherwise that the store is unavailable, if some ended so; otherwise nothing |
| WorkerOutcomes.ReapInfo | src/xiaowei_agent/application/worker.py:311-325 | behind a reap a round is dirty exactly if it was before or one of its finished attempts neither returned nor was cancelled; it has counted exactly its attempts that returned true, and has lost exactly the finished ones |
| WorkerOutcomes.ReapFlights | src/xiaowei_agent/application/worker.py:311-325 | exactly the finished attempts leave the flight |
| WorkerOutcomes.ReapKeepsOrder | src/xiaowei_agent/application/worker.py:302-332 | the attempts that stay in flight keep the order of their claims, and the rounds that stay open theirs |
| WorkerOutcomes.ReapSettles | src/xiaowei_agent/application/worker.py:327-328 | a reap closes exactly the open rounds of finished attempts that are dispatched and empty, and clears window and counter exactly if one of them is clean |
| WorkerOutcomes.SeriousOrNot | src/xiaowei_agent/application/worker.py:308-332 | either some finished attempt is the first with such an error, or none has one |
| WorkerOutcomes.OpenMeans | src/xiaowei_agent/application/worker.py:470-471 | a new round is open, last, empty, clean, not dispatched, and has counted nothing; nothing else changes |
| WorkerOutcomes.LaunchMeans | src/xiaowei_agent/application/worker.py:292-298 | a claimed attempt is the last in flight and in its round; nothing else changes |
| WorkerOutcomes.FinishMeans | src/xiaowei_agent/application/worker.py:299-300 | the end of a dispatch marks the round, which closes at once exactly if it has no attempts |
| WorkerOutcomes.GroundedMeans | src/xiaowei_agent/application/worker.py:334-343 | a cancellation takes every attempt out of flight and out of its round, and changes no flag and no count |
| WorkerOutcomes.NotedMeans | src/xiaowei_agent/application/worker.py:475-490 | the failure handler makes every open round dirty, ends the current one and opens the window now unless it is open |
| WorkerOutcomes.ExhaustedMeans | src/xiaowei_agent/application/worker.py:487-490 | the window is exhausted exactly if the failure that opened it lies at least its length back |
| WorkerLoop.Worker.SettleRound | src/xiaowei_agent/application/worker.py:364-371 | `_settle` in place equals `Settle` on the books |
| WorkerLoop.Worker.PopOne | src/xiaowei_agent/application/worker.py:312-325 | one finished attempt leaves its round, which counts its result or turns dirty |
| WorkerLoop.Worker.PopFinished | src/xiaowei_agent/application/worker.py:311-325 | the first loop of `_reap` pops all finished attempts in order and keeps the first fatal error |
| WorkerLoop.Worker.ReapFinished | src/xiaowei_agent/application/worker.py:302-332 | `_reap` pops everything, settles the touched rounds and only then raises |
| WorkerLoop.Worker.WaitForSlot | src/xiaowei_agent/application/worker.py:250-257 | reaps at every wake until a slot is free or an error ends the wait; granted only below the limit |
| WorkerMachine.TakeSlotIsOneWake | src/xiaowei_agent/application/worker.py:250-257 | one wake of the wait for a slot is the step the machine takes: it goes on waiting, is granted or raises in the same cases, with the same books |
| WorkerLoop.Worker.SettleTouched | src/xiaowei_agent/application/worker.py:327-328 | the second loop settles the touched rounds one behind the other |
| WorkerLoop.Worker.OpenRound | src/xiaowei_agent/application/worker.py:470-471 | a new, empty round joins the open ones |
| WorkerLoop.Worker.LaunchAttempt | src/xiaowei_agent/application/worker.py:292-298 | a granted claim is in flight and in its round |
| WorkerLoop.Worker.EndDispatch | src/xiaowei_agent/application/worker.py:299-300 | the end of a dispatch marks the round and settles it |
| WorkerLoop.Worker.SoilRounds | src/xiaowei_agent/application/worker.py:477-478 | every open round turns dirty, no other one does |
| WorkerLoop.Worker.CatchUnavailable | src/xiaowei_agent/application/worker.py:475-496 | the handler notes the failure and answers with the capped delay, or with none when the window is exhausted |
| WorkerLoop.Worker.CancelAll | src/xiaowei_agent/application/worker.py:334-343 | after `_cancel` nothing is in flight, and each round has lost exactly its cancelled attempts |
| WorkerLedger.SawFailureIff | src/xiaowei_agent/application/worker.py:302-332 | a round saw a failure exactly when one came behind its opening |
| WorkerLedger.WindowStart | src/xiaowei_agent/application/worker.py:364-371 | an open window began with a caught failure behind which no round settled clean |
| WorkerLedger.WindowClosed | src/xiaowei_agent/application/worker.py:364-371 | when no window is open, every caught failure is followed by a round that settled clean |
| WorkerAgreement.SettleAgrees | src/xiaowei_agent/application/worker.py:364-371 | a settling round clears the window exactly when it saw no failure |
| WorkerAgreement.ReapAgrees | src/xiaowei_agent/application/worker.py:302-332 | a reap keeps books and log in agreement and leaves no round that should be closed |
| WorkerAgreement.LaunchAgrees | src/xiaowei_agent/application/worker.py:292-298 | a launch keeps them in agreement |
| WorkerAgreement.FinishAgrees | src/xiaowei_agent/application/worker.py:299-300 | the end of a dispatch keeps them in agreement |
| WorkerAgreement.NotedAgrees | src/xiaowei_agent/application/worker.py:475-496 | a caught failure soils all open rounds, ends the current one and is counted once more |
| WorkerMachine.StepKeeps | src/xiaowei_agent/application/worker.py:250-511 | every step of the machine, in any order, keeps the invariant |
| WorkerMachine.After | src/xiaowei_agent/application/worker.py:429-511 | every state of every run keeps the invariant |
| WorkerRuns.BooksInEveryRun | src/xiaowei_agent/application/worker.py:250-343 | in every run: at most the allowed number in flight, each round has exactly its flights, no open round is dispatched and empty, open rounds are at most one more than flights, and a stopped worker has none in flight |
| WorkerRuns.LeavesNothingIff | src/xiaowei_agent/application/worker.py:334-343 | a worker that has left leaves attempts in flight exactly if it was cancelled again while it awaited its cancelled attempts |
| WorkerRuns.CancelledTwice | src/xiaowei_agent/application/worker.py:334-343 | and such a run exists: cancelled twice, it leaves with one attempt in flight |
| WorkerRuns.WindowInEveryRun | src/xiaowei_agent/application/worker.py:364-371 | in every run: dirty means a failure since the opening; the window is cleared only by a clean round; fail-stop needs two caught failures a whole window apart with no clean round in between |
| WorkerRuns.FailStopIff | src/xiaowei_agent/application/worker.py:479-490 | the handler stops the worker exactly when the failure that opened the window lies a whole window back |
| WorkerRuns.ErrorsEnd | src/xiaowei_agent/application/worker.py:475-511 | an unavailable store is waited out until the window is over; every other error ends the worker at once, with that error |
| WorkerRuns.DrainEnds | src/xiaowei_agent/application/worker.py:441-466 | a drain that meets serious outcomes ends the worker with the first of them in claim order; without one it ends as stopped |
| WorkerOrder.RoundsAndWaits | src/xiaowei_agent/application/worker.py:468-511 | in every run rounds and waits alternate: each round is followed by exactly one wait, for the next poll or behind a failure, before the next one begins |
| WorkerOrder.StoppedHasDrained | src/xiaowei_agent/application/worker.py:441-511 | a worker that ends as stopped was told to stop and has drained |
| WorkerOrder.RecordsInEveryRun | src/xiaowei_agent/application/worker.py:302-332 | in every run an attempt has exactly the outcome with which it ended, and the clock shows the time that passed |
| WorkerBackoff.DelaysGrow | src/xiaowei_agent/application/worker.py:491-495 | delays lie between base and cap and never shrink while failures add up |
| WorkerBackoff.DelayDoubles | src/xiaowei_agent/application/worker.py:491-495 | the first delay is the base, each further one twice the one before, or the cap |
| WorkerBackoff.FailuresBounded | src/xiaowei_agent/application/worker.py:479-499 | in every run a window counts at most as many failures as waits fill it, and one more when it stops the worker |
| WorkerBackoff.PowersBounded | src/xiaowei_agent/application/worker.py:491-496 | so the power of two in the delay stays bounded |
| ConfigEdits.UpdateKeepsSecret | src/xiaowei_agent/application/integration_config_service.py:325-347 | an accepted update keeps id and kind, and the secret is the carried one or else the stored one |
| ConfigEdits.UpdateTwice | src/xiaowei_agent/application/integration_config_service.py:325-347 | an accepted update is idempotent |
| ConfigEdits.EmptyUpdate | src/xiaowei_agent/application/integration_config_service.py:219-238 | an update that carries nothing changes nothing |
| ConfigFields.UpdateIff | src/xiaowei_agent/application/integration_config_service.py:325-347 | an update is accepted exactly if it carries no foreign field and its outcome meets the contract, said field by field: every carried field is taken, every other one stays, and the user name goes away from basic authentication |
| ConfigFields.CreationIff | src/xiaowei_agent/application/integration_config_service.py:282-311 | a creation succeeds exactly with a new id, room, a secret where one is due and a resource of exactly the drafted fields within the contract |
| ConfigFields.DocumentIs | src/xiaowei_agent/contracts/resource_config.py:231-260 | the contract of a document, said over its elements |
| ConfigFields.ChangeMeans | src/xiaowei_agent/application/integration_config_service.py:740-857 | what every successful change does to the document, field by field |
| ConfigFields.RefusalMeans | src/xiaowei_agent/application/integration_config_service.py:740-857 | what every refused change answers |
| ConfigEdits.ClearAndRestore | src/xiaowei_agent/application/integration_config_service.py:350-358 | clearing a secret always succeeds, and carrying the old secret again restores the resource |
| ConfigEdits.SecretBlocksNoAuth | src/xiaowei_agent/application/integration_config_service.py:343-346 | a stored secret never yields to `none`; once it is cleared the switch succeeds |
| ConfigEdits.CreateIff | src/xiaowei_agent/application/integration_config_service.py:761-773 | when a creation succeeds, appending the resource, and what it answers otherwise |
| ConfigEdits.DeleteIff | src/xiaowei_agent/application/integration_config_service.py:843-849 | deletion cuts out the one element and keeps the order; it is refused exactly for unknown ids |
| ConfigEdits.ClearIff | src/xiaowei_agent/application/integration_config_service.py:814-830 | clearing succeeds exactly for known ids and touches that one secret |
| ConfigEdits.AlterFrame | src/xiaowei_agent/application/integration_config_service.py:395-407 | an alteration leaves every other element, the order and the id unchanged |
| ConfigEdits.CreateDelete | src/xiaowei_agent/application/integration_config_service.py:740-857 | deleting what was created restores the document |
| ConfigEdits.Steps | src/xiaowei_agent/contracts/resource_config.py:231-260 | after any sequence of changes a valid document is valid: unique ids, at most 100 resources, unique F1 names |
| ConfigEdits.Untouched | src/xiaowei_agent/application/integration_config_service.py:661-722 | over any sequence of changes to other ids a resource keeps every field |
| ConfigEdits.SecretSurvives | src/xiaowei_agent/application/integration_config_service.py:341-346 | over any sequence of changes a configured secret stays configured unless that resource is cleared or deleted |
| ConfigSafety.StepKeeps | src/xiaowei_agent/application/integration_config_service.py:534-575 | every step or cancellation of every operation, under any failure, keeps the invariant of the service |
| ConfigSafety.After | src/xiaowei_agent/application/integration_config_service.py:534-722 | every state of every run keeps the invariant: types, lock, records, and for each write on record or to come the read it is built on |
| ConfigTheorems.AnswersTellTheRecord | src/xiaowei_agent/application/integration_config_service.py:534-722 | what each answer tells of the record: success is start, write of the right document and success; refusal is start and failure without a write; denial is only the denial; an escaped error is a start and a secret the contract rejects; for no result the possible records are listed |
| ConfigTheorems.RaisedIff | src/xiaowei_agent/application/integration_config_service.py:380-392 | building the new content fails with an uncaught contract error exactly if the request itself carries a secret that the contract rejects |
| ConfigTheorems.BadSecretsNeverWrite | src/xiaowei_agent/application/integration_config_service.py:554-599 | in every run only such a request is answered by that error; it never writes a file, is never told a success and never has one on record |
| ConfigService.OutcomeIff | src/xiaowei_agent/application/integration_config_service.py:534-575 | an uninterrupted operation leaves its outcome on record exactly if it is admitted, its start and its outcome are recorded, and it does not carry such a secret behind a good read |
| ConfigService.AnswerIs | src/xiaowei_agent/application/integration_config_service.py:534-575 | what an uninterrupted operation answers, leaves on record and writes, in a table over how each of its effects goes |
| ConfigService.OutcomeMissing | src/xiaowei_agent/application/integration_config_service.py:582-599 | with an empty key everything works well and yet only the start is on record |
| ConfigTheorems.WriteBehindStart | src/xiaowei_agent/application/integration_config_service.py:554-568 | a file is written only by an allowed operation whose record is exactly its start, and with what the request makes of the replaced file |
| ConfigTheorems.NoWriteWithoutStart | src/xiaowei_agent/application/integration_config_service.py:554-568 | no file is written before the start of its operation is on record |
| ConfigTheorems.CancelledLeavesIff | src/xiaowei_agent/application/integration_config_service.py:534-575 | a cancelled operation that was not writing leaves the record as it was or with the entry it waited for, and either can happen |
| ConfigSaves.EveryWriteFields | src/xiaowei_agent/application/integration_config_service.py:380-392 | in every run each file written holds, field by field, what its request carries, the stored value where it carries none, nothing and disabled for a clearing, one generation on |
| ConfigSaves.SavedFields | src/xiaowei_agent/application/integration_config_service.py:577-659 | an operation told a success has such a write on record, of the generation it was told |
| ConfigSaves.SettingsSecretsSurvive | src/xiaowei_agent/application/integration_config_service.py:380-392 | in every run a configured API key or Feishu secret stays configured in every file of its domain unless a clearing of that domain was written |
| ConfigUpdates.NoUpdateLostIff | src/xiaowei_agent/application/integration_config_service.py:554-575 | in every run, cancelled writes included, and for each domain: no update is lost (each write replaces the file its operation had read) exactly if no write of the domain lands between an operation's read and its write; exactly then the generations are consecutive, and exactly then none is written twice |
| ConfigUpdates.LockSuffices | src/xiaowei_agent/application/integration_config_service.py:554-575 | a run that cancels no operation in its write has no such write, so the lock keeps every update |
| ConfigCancellation.UpdateLost | src/xiaowei_agent/application/integration_config_service.py:554-575 | an operation cancelled in its write loses the update of the next one, which was told that it is saved: the late write lands on top |
| ConfigUpdates.GenerationsConsecutive | src/xiaowei_agent/application/integration_config_service.py:582-655 | a domain without writes keeps its file in every run; where no write is disturbed the stored generation counts the writes |
| ConfigUpdates.SavedGenerationsDiffer | src/xiaowei_agent/application/integration_config_service.py:575 | where no write of a domain is disturbed, no two successful operations of it are told the same generation |
| ConfigCancellation.GenerationToldTwice | src/xiaowei_agent/application/integration_config_service.py:566-575 | a late write sets the generation back, and two operations are told that they saved generation 2 |
| ConfigUpdates.DocumentIsSerial | src/xiaowei_agent/application/integration_config_service.py:682-722 | where no write of resources is disturbed, the document is what the written changes give one after the other |
| ConfigCancellation.DocumentNotSerial | src/xiaowei_agent/application/integration_config_service.py:682-722 | a late write drops a resource created meanwhile: the document holds one resource where the written changes give two |
| ConfigUpdates.SecretSurvivesRuns | src/xiaowei_agent/application/integration_config_service.py:341-346 | in every run, disturbed or not, a configured secret survives unless a clearing or deletion of that resource was written |
| ConfigService.Service.Mutate | src/xiaowei_agent/application/integration_config_service.py:554-575 | the locked part, step by step as the machine takes it |
| ConfigService.Service.Rebuild | src/xiaowei_agent/application/integration_config_service.py:693-711 | behind a good read: refusals are recorded, contract errors escape where the code lets them, or the document is stored; a success has written each field as the request says |
| ConfigService.Service.Store | src/xiaowei_agent/application/integration_config_service.py:712-722 | the write and the outcome behind it, for each way the write can go |
| ConfigService.Service.Handle | src/xiaowei_agent/application/integration_config_service.py:534-575 | a whole operation equals the uninterrupted run of its machine steps; a success has written each field as the request says, of the generation it answers |
| TaskListing.CollectPage | src/xiaowei_agent/application/channel_access.py:317-330 | the loop shows the first non-group tasks up to the limit and moves the cursor to the last task looked at, if there is more |
| TaskPaging.VisibleIff | src/xiaowei_agent/application/channel_access.py:278-330 | a reader sees exactly the own non-group tasks below the cursor; an administrator all of them |
| TaskPaging.VisibleNewest | src/xiaowei_agent/application/channel_access.py:278-330 | what a reader sees is strictly descending, so nothing appears twice |
| TaskPaging.PageSplits | src/xiaowei_agent/application/channel_access.py:278-330 | a page and what is left below its cursor make up what the reader sees; no cursor means nothing is left |
| TaskPaging.PageSize | src/xiaowei_agent/application/channel_access.py:278-330 | how long a page is: an administrator gets the limit or all there is; a reader gets the limit or every visible task among the newest hundred |
| TaskPaging.CursorDecreases | src/xiaowei_agent/application/channel_access.py:318-329 | a cursor is strictly below the one before |
| TaskPaging.GrownBelow | src/xiaowei_agent/persistence/postgres.py:1458-1516 | tasks that arrive on top do not show below an earlier cursor |
| TaskPaging.FollowingCursors | src/xiaowei_agent/application/channel_access.py:278-330 | following cursors while tasks arrive anywhere in the order shows tasks in strictly descending order, none twice, none that is not there, and skips none of those visible at first; all of these are shown when the cursors end, within one call more than there are tasks |
| TaskPaging.NewOnTopDoNotShow | src/xiaowei_agent/application/channel_access.py:278-330 | where new tasks get numbers above all others, exactly the tasks visible at first are shown |
| StableRead.ReadStable | src/xiaowei_agent/application/channel_access.py:238-252 | the first attempt between whose reads the task did not change decides; without one the task is gone or the reading unstable |
| StableRead.EqualReads | src/xiaowei_agent/application/channel_access.py:243 | two reads with equal versions mean that nothing changed between them |
| StableRead.ReadingIff | src/xiaowei_agent/application/channel_projection.py:194-210 | a reading is stable exactly when the task rests once between two of the reads |
| StableRead.ReadingsAgree | src/xiaowei_agent/application/channel_access.py:238-252 | the reads and loads determine the answer |
| StableRead.OneMomentIff | src/xiaowei_agent/application/channel_access.py:238-252 | equal reads of the task make every stable view one of a single moment exactly if the plan and ledger rows change only with the version |
| Doubling.DoubledIsProduct | src/xiaowei_agent/application/channel_projection.py:332-342 | doubling n times is multiplying by the n-th power of two |
| Doubling.CappedIs | src/xiaowei_agent/application/channel_projection.py:332-342 | the capped exponential is the base times the power of two, or the cap where that is smaller |
| Doubling.CappedGrows | src/xiaowei_agent/application/channel_projection.py:332-342 | the capped exponential grows with its exponent and stays between the smaller of base and cap and the cap |
| ChannelDelays.BoundedExponential | src/xiaowei_agent/application/channel_projection.py:332-342 | the loop equals the capped power for every exponent, no value exceeds the larger of base and cap, and it doubles only below the cap |
| ChannelDelays.DoublingsBounded | src/xiaowei_agent/application/channel_projection.py:335-341 | the number of doublings is bounded by what it takes to reach the cap, whatever the exponent |
| ChannelDelays.RetryDelay | src/xiaowei_agent/application/channel_projection.py:318-330 | the wait lies in its bounds and grants the provider its wish up to the cap |
| ChannelDelays.RetryWaitIs | src/xiaowei_agent/application/channel_projection.py:318-330 | the wait starts at the base and doubles with each failure up to the cap; a longer wish is granted up to the cap |
| ChannelDelays.RetryWaitGrows | src/xiaowei_agent/application/channel_projection.py:318-330 | the wait grows with failures and with the wish |
| ChannelDelays.TaskPollDelay | src/xiaowei_agent/application/channel_projection.py:344-354 | the poll wait lies in its bounds |
| ChannelDelays.PollWaitIs | src/xiaowei_agent/application/channel_projection.py:344-354 | the poll wait starts at the base and doubles with each attempt behind the first that was no delivery failure, up to the cap |
| ChannelDelays.PollWaitGrows | src/xiaowei_agent/application/channel_projection.py:344-354 | the poll wait grows with attempts and falls with delivery failures |
| Rounding.RoundedClose | src/xiaowei_agent/evidence/prometheus_alert.py:147-149 | rounding moves a value by at most half a millionth |
| Rounding.RoundedMonotone | src/xiaowei_agent/evidence/prometheus_alert.py:147-149 | rounding keeps the order |
| Rounding.RoundedTwice | src/xiaowei_agent/evidence/prometheus_alert.py:147-149 | rounding is idempotent |
| Rounding.NearestOdd | src/xiaowei_agent/evidence/prometheus_alert.py:147-149 | rounding half to even is symmetric in the sign |
| Rounding.DifferenceClose | src/xiaowei_agent/evidence/prometheus_alert.py:201-209 | a rounded difference and the difference of rounded values are at most one millionth apart |
| KeyOrder.SortAscending | src/xiaowei_agent/evidence/prometheus_alert.py:199 | sorting distinct keys gives them in strictly ascending order |
| KeyOrder.BelowIff | src/xiaowei_agent/evidence/prometheus_alert.py:199 | the order of strings: the first character that differs decides, and without one the shorter string comes first |
| KeyOrder.AscendingUnique | src/xiaowei_agent/evidence/prometheus_alert.py:199 | the order of keys is decided by which keys there are |
| MetricEvidence.Group | src/xiaowei_agent/evidence/prometheus_alert.py:171-194 | the loop groups exactly the points of each series, or stops on rows that are not acceptable |
| MetricEvidence.Build | src/xiaowei_agent/evidence/prometheus_alert.py:152-237 | rows become evidence exactly when they are acceptable, and then the specified evidence |
| MetricMeaning.AcceptedMeans | src/xiaowei_agent/evidence/prometheus_alert.py:152-194 | rows are acceptable exactly if each has all fields, for this metric and instance, at a time in the window and with a finite value, the times of each series rise, and neither series nor points exceed their limits |
| MetricMeaning.EvidenceMeans | src/xiaowei_agent/evidence/prometheus_alert.py:199-237 | the facts belong to the keys of the rows in ascending order; each tells the number of its rows, and its first, latest, smallest and largest value and their change at six decimals; the evidence is sampled exactly if a limit was met |
| MetricTheorems.PointsConserved | src/xiaowei_agent/evidence/prometheus_alert.py:174-215 | the point counts add up to the number of rows |
| MetricTheorems.MinMaxOccur | src/xiaowei_agent/evidence/prometheus_alert.py:210-211 | the smallest and the largest value occur in the series |
| MetricTheorems.SummaryCoherent | src/xiaowei_agent/evidence/prometheus_alert.py:199-215 | after rounding min and max enclose first and latest, the change is within a millionth of their difference, and the trend fits their order |
| MetricTheorems.TrendIff | src/xiaowei_agent/evidence/prometheus_alert.py:201-202 | the trend is rising or falling exactly for more than half a millionth of change |
| MetricTheorems.FlatButApart | src/xiaowei_agent/evidence/prometheus_alert.py:201-209 | a flat trend may come with first and latest figures that differ by rounding |
| Rounding.NearestApartIff | src/xiaowei_agent/evidence/prometheus_alert.py:147-149 | two values round apart exactly if some half-way point separates them, where on the point itself the even side wins |
| MetricTheorems.FiguresApartIff | src/xiaowei_agent/evidence/prometheus_alert.py:199-209 | the rounded first and latest figures differ exactly if such a point lies between the two values; behind a flat trend they then differ by one millionth |
| MetricTheorems.EverySeries | src/xiaowei_agent/evidence/prometheus_alert.py:181-215 | each fact belongs to its key in order, and its series lies in the window, strictly ascending in time and within the limit |
| MetricTheorems.InterleavingDoesNotMatter | src/xiaowei_agent/evidence/prometheus_alert.py:199-218 | how the rows of different series are interleaved changes neither acceptance nor evidence |

## Left out

- The SQL parser, its dialects and its logging: the guard takes an arbitrary parse result.
- ReadonlyStatements.MatchElement: does not state in which order matches are yielded, nor how often
  outside repetition, because only the set of results reaches the caller.
- StatementTargets.ExtractionIff: takes a byte range captured as `relation`, or a dotted name captured
  as `inner_query`, for no target, also in `StatementForms.RowKeepsRuleIff`, where the program builds an object of numbers or a range of names;
  no row of the shipped table does this (`StatementListChecks.ShippedListChecked`).
- Unicode category Cf and the case mappings, the hash function, and the checks on single strings of
  the resource contracts: they are parameters.
- `verify_sql` for template-locked statements, `sql_parse_shape` and the message heuristics.
- `Worker.poll_once`, heartbeats, leases and the retry schedule inside an attempt: an attempt only
  ends, in one of five ways.
- WorkerLoop.Worker.ReapFinished: the methods of the class are what happens between two awaits,
  because their order is the action table of `WorkerMachine.Apply`.
- WorkerMachine.After: does not go on with the attempts of a worker that was cancelled twice, because
  the worker no longer looks at them.
- ConfigUpdates.SavedGenerationsDiffer: goes one way, because a generation that is written twice need not
  be told twice: a cancelled or failed operation is told none. For written generations
  `ConfigUpdates.NoUpdateLostIff` goes both ways.
- ConfigUpdates.DocumentIsSerial: goes one way, because a change that a late write drops may have had no
  effect on the final document, as when it was an update that carries nothing.
- Several web processes that write the same files: the program does not support them either.
- Connection probes, OAuth tests, provider state and the digests of audit events.
- The order in which waiting operations get the lock: any of them may be next.
- TaskPaging.FollowingCursors: does not model a change of a task's group binding between two pages,
  nor the changing status shown with a task.
- `channel_projection._process_due`, deliveries, claims and rendering; group membership checks and the
  text previews of tasks.
- MetricEvidence.Build: does not model binary floating point, because values are real numbers; so
  neither the rounding errors of differences and of decimal conversion nor the overflow of a huge
  whole number.
- `build_alert_evidence` and the envelope around the facts.
