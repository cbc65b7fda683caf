# La Colectiva solicitudes assistant, modelled in Dafny

La Colectiva's request assistant is a Next.js application. A signed-in
requester talks to an AI assistant about a print or marketing job. The
assistant asks the brief's questions, picks out the client, the service and
the job's details, and files a request ticket. Around this chat sit several
other parts:

- Supabase authentication: registration, login, password reset, e-mail
  confirmation and an auth-events webhook;
- the middleware that gates pages by session and account status;
- role checks;
- a cache of the client, service and brief tables;
- a handful of maintenance scripts.

This project models the core of that system and proves properties of the
model. The modules are:

- `Herramientas`: the four tools the assistant may call. They are
  `buscarCliente`, `buscarServicio`, `obtenerPreguntasDelBrief` and
  `guardarSolicitudEnSupabase`.
- `Orchestrator`: the Gemini function-calling loop.
- `ChatRoute`: the `/api/ai/chat` endpoint and its per-user session map.
- `ServiceMatcher`: the keyword matcher for the service step that the patch
  scripts insert.
- The patch scripts: `PatchV33`, `PatchV33b`, `FixV34`, `ApplyFrag` and
  `ApplyV32Fix`. Each is modelled as a function from the patched file's
  text to the new text, over a small regular-expression engine (`Pattern`).
- `Middleware`, `SupabaseServer`, `RequireAuth` and `Roles`: the
  authentication gates.
- `Email`: the validators.
- The API handlers: `ConfirmRoute`, `ResendConfirmation`, `WebhookRoute`
  and `HistoryRoute`. The tables they read and write are the fields of
  `Db.Store`.
- The client pages: `RegisterPage`, `LoginPage`, `ForgotPasswordPage`,
  `ResetPasswordPage`, `ChatPage` and `AuthEventsPage`.
- Two scripts: `SmokeScript` and `VerifyGeminiKey`.
- `Text` and `Seqs`: the JavaScript string and array operations the rest
  relies on. They cover case mapping, trimming, `includes`, `split`, `join`,
  `filter`, `flatMap`, `find` and the stable `sort`.

Code that changes state in place is modelled as classes with `modifies`
clauses. This covers the chat session map, the orchestrator loop, the
database tables, the page components and `process.env`. Pure code is
modelled as functions with lemmas.

Everything the code gets from outside is a parameter of the model: Gemini,
Supabase, the network, the clock, `Math.random()`, HMAC digests and file
contents.

## Model

| member | source | states |
|---|---|---|
| Herramientas.BuscarClienteSpec | src/lib/ai/herramientas.ts:149-155 | `buscarCliente` keeps exactly the cached clients whose lower-cased name contains the lower-cased term, in cache order |
| Herramientas.BuscarClienteCaseInsensitive | src/lib/ai/herramientas.ts:149-151 | the result does not depend on the case of the term |
| Herramientas.Fold | src/lib/ai/herramientas.ts:166 | the NFD step maps each character to its base letter, length preserved |
| Herramientas.StripMarks | src/lib/ai/herramientas.ts:167 | removing U+0300-U+036F keeps exactly the other characters |
| Herramientas.Normalize | src/lib/ai/herramientas.ts:163-167 | `normalize` leaves no upper-case ASCII letter and no combining mark |
| Herramientas.RunLength | src/lib/ai/herramientas.ts:185 | the longest `[a-z0-9]` prefix: every character in it is a token character, the next is not |
| Herramientas.Tokens | src/lib/ai/herramientas.ts:185 | `split(/[^a-z0-9]+/).filter(Boolean)` yields only non-empty runs of `[a-z0-9]` |
| Herramientas.TokensAreMaximalRuns | src/lib/ai/herramientas.ts:185 | the tokens are exactly the maximal runs of `[a-z0-9]`, each once, left to right: each token is the piece at its span, each span is a maximal run, the spans are in order without overlap, and every maximal run is among them |
| Herramientas.TokensEmptyIff | src/lib/ai/herramientas.ts:185 | there are no tokens exactly when no character is in `[a-z0-9]` |
| Herramientas.Singular | src/lib/ai/herramientas.ts:168 | `singular` either keeps the token or drops exactly one trailing `s` |
| Herramientas.BuscarServicio | src/lib/ai/herramientas.ts:184-196 | the first service in table order whose normalised text contains some variant of the term; `None` exactly when no service matches |
| Herramientas.NoTokenNoService | src/lib/ai/herramientas.ts:185-193 | a term with no `[a-z0-9]` character after normalisation finds no service |
| Herramientas.FlyersExpand | src/lib/ai/herramientas.ts:168-182 | 'flyers' and 'flyer' both expand to flyer/volante |
| Herramientas.LonasKey | src/lib/ai/herramientas.ts:168-182 | the key 'lonas' is reached only by the token 'lonass'; 'lonas' itself expands to 'lona' |
| Herramientas.ObjectSourceNeverFound | src/lib/ai/herramientas.ts:169-192 | the inherited `constructor` entry of the synonym object is a variant that no normalised service text contains |
| Herramientas.NoUpperNoOccurrence | src/lib/ai/herramientas.ts:189-192 | a normalised text never contains a string with an upper-case letter |
| Herramientas.BareSMatchesFirst | src/lib/ai/herramientas.ts:168-193 | the term 's' becomes the empty variant, so the first service is returned |
| Herramientas.PutByIdSpec | src/lib/ai/herramientas.ts:214-216 | `Map.set` by id keeps ids distinct, holds the new entry and drops only the old entry with that id |
| Herramientas.MapByIdSpec | src/lib/ai/herramientas.ts:214-216 | `new Map(entries by id)`: distinct ids, every value one of the entries, every id present, the value for an id is its last entry |
| Herramientas.MapByIdLastValue | src/lib/ai/herramientas.ts:214-216 | the value kept for an id is the last entry with that id |
| Herramientas.PutByIdPresent | src/lib/ai/herramientas.ts:214-216 | setting an entry the map already holds changes nothing |
| Herramientas.PutByIdAbsent | src/lib/ai/herramientas.ts:214-216 | setting a new id appends it in insertion order |
| Herramientas.MapByIdDistinct | src/lib/ai/herramientas.ts:214-218 | without repeated ids the map's values are the list itself |
| Herramientas.MergeDistinct | src/lib/ai/herramientas.ts:214-218 | merging general then specific questions gives the general ones followed by the specific ones not already present |
| Herramientas.SortDistinct | src/lib/ai/herramientas.ts:218-220 | sorting keeps ids distinct |
| Herramientas.BriefShape | src/lib/ai/herramientas.ts:204-223 | the brief has distinct ids, is sorted by `orden \|\| 999`, and has an entry for every general or matching question |
| Herramientas.BriefContents | src/lib/ai/herramientas.ts:204-223 | for distinct ids the brief holds exactly the general questions and those matching both arguments; equal `orden` keeps order, general first |
| Herramientas.TicketIdShape | src/lib/ai/herramientas.ts:246 | the ticket id is 'S-' followed by the decimal of a number at most 9999 |
| Herramientas.Ejecutar | src/lib/ai/herramientas.ts:138-272 | only `buscarCliente` with a non-string term throws; only the save tool sets FINALIZANDO; a step, when set, is FINALIZANDO or ERROR |
| Herramientas.DeclaredToolsRun | src/lib/ai/herramientas.ts:34-264 | each declared tool, called with its required string arguments, returns without the unknown-tool error, and only the save tool sets a step |
| Herramientas.UnknownToolIsError | src/lib/ai/herramientas.ts:266-270 | any other name returns 'Herramienta desconocida' with step ERROR |
| ServiceMatcher.OrEmpty | apply_v33_patch.js:46-47 | `v \|\| ''` is empty for a falsy value and the (non-empty) string otherwise |
| ServiceMatcher.WordsFrom | apply_v33_patch.js:38 | the pieces of `split(/\s+/).filter(Boolean)` are non-empty infixes of the input |
| ServiceMatcher.Words | apply_v33_patch.js:38 | `tokens`: non-empty infixes of the normalised input |
| ServiceMatcher.WordsFromEmptyIff | apply_v33_patch.js:38 | there are no tokens from a position exactly when the rest is white space |
| ServiceMatcher.WordsEmptyIff | apply_v33_patch.js:38 | there are no tokens exactly when the input is all white space |
| ServiceMatcher.ScoreOneOnlyWithoutWords | apply_v33_patch.js:48-51 | score 1 (`contains`) goes only to an input with no tokens, made of white space and at least four UTF-16 code units long |
| ServiceMatcher.ScoreCases | apply_v33_patch.js:48-51 | score 3 iff every token occurs, at least 2 iff some token occurs, 0 iff no token and not the whole input occurs |
| ServiceMatcher.CandidatesSpec | apply_v33_patch.js:44-55 | the candidates are a permutation of the rows scoring above 0, sorted by score then by the UTF-16 `.length` of the two normalized texts, both descending, stable among ties |
| ServiceMatcher.SortedMeansHigherFirst | apply_v33_patch.js:55 | an earlier candidate has a higher score, or the same score and a UTF-16 length (`servNorm.length + comboNorm.length`) at least as large |
| ServiceMatcher.DistinctFrom | apply_v33_patch.js:90 | `Array.from(new Set(xs))` keeps first occurrences, each once, in order |
| ServiceMatcher.TruthyCategories | apply_v33_patch.js:90 | `(filas \|\| []).map(r => r.categoria).filter(Boolean)` keeps exactly the non-empty categories; nothing when the query gave no data |
| ServiceMatcher.CategoriesSpec | apply_v33_patch.js:90 | the offered categories are distinct, non-empty and exactly those of the rows |
| ServiceMatcher.OptionLines | apply_v33_patch.js:80 | one line per option, numbered from 1 |
| ServiceMatcher.Options | apply_v33_patch.js:76-78 | the options are the first min(n, 6) candidates' rows, in candidate order |
| ServiceMatcher.OptionLinesNumbered | apply_v33_patch.js:80 | line `i` starts with `i + 1` and '. ' |
| ServiceMatcher.HandleOnlyInItsStep | apply_v33_patch.js:36 | the handler acts exactly in step PASO_2_ESPERANDO_SERVICIO with a non-empty message |
| ServiceMatcher.HandleQueryError | apply_v33_patch.js:42 | a failed `servicios` query answers 400 'Error consultando servicios' and stores nothing |
| ServiceMatcher.HandleSingle | apply_v33_patch.js:57-73 | one candidate: that row is chosen, the session moves to PASO_3_ESPECIFICAS_PENDIENTES with its three names; only the second patch stores the questions, `indice` 0 and empty answers |
| ServiceMatcher.HandleSeveral | apply_v33_patch.js:75-83 | several candidates: the options are stored in PASO_2_ESPERANDO_SERVICIO_AMBIGUO and listed in the reply |
| ServiceMatcher.HandleNone | apply_v33_patch.js:85-92 | no candidate: the reply offers each non-empty category once and nothing is stored |
| ServiceMatcher.VariantsDifferOnlyInSingleState | apply_v33_patch2.js:48-58 | the two patches' handlers differ only in the extra fields of the single-match state |
| Orchestrator.PromptName | src/lib/ai/prompt_orchestrator.ts:17-18 | the name in the system prompt is never empty, and it is the display name when one is given |
| Orchestrator.PromptNameDefault | src/lib/ai/prompt_orchestrator.ts:18 | without a display name, or with an empty one, the prompt says 'Karol' |
| Orchestrator.Carried | src/lib/ai/prompt_orchestrator.ts:63 | INICIAL becomes RECOLECTANDO_INFORMACION and every other step is kept |
| Orchestrator.Exchange | src/lib/ai/prompt_orchestrator.ts:50-60 | `sendMessage` extends the history by the user's turn and the model's reply, keeping the old history |
| Orchestrator.Loop | src/lib/ai/prompt_orchestrator.ts:66-83 | the tool loop keeps the history as a prefix, ends on a reply, runs at most 5 tools and records one result for each tool that returned |
| Orchestrator.LoopFacts | src/lib/ai/prompt_orchestrator.ts:66-83 | after the loop the step is the last one a tool set, every function response answers the call before it, and the loop stopped on a reply without a call or at the cap |
| Orchestrator.Round | src/lib/ai/prompt_orchestrator.ts:67-82 | one pass runs the reply's first call; a crash changes nothing else, otherwise the response sent names that call |
| Orchestrator.StepAfterSnoc | src/lib/ai/prompt_orchestrator.ts:76 | a tool result's step, when set, replaces the current one |
| Orchestrator.ToolLoop | src/lib/ai/prompt_orchestrator.ts:62-83 | the `while` loop computes `Loop`: ends on a reply, at most 5 tools executed, one message sent per tool that returned |
| Orchestrator.OrchestrateTurn | src/lib/ai/prompt_orchestrator.ts:35-100 | the method computes `Turn`; blank text or no Gemini configuration returns null without sending anything; otherwise the user's text is sent first and one response per returned tool follows |
| Orchestrator.TurnFacts | src/lib/ai/prompt_orchestrator.ts:59-99 | a completed turn ran at most 5 tools, its step is the last a tool set (else the carried step), its history starts with the old history and the user's turn, and every function response answers the call before it |
| Orchestrator.KeepsPrefix | src/lib/ai/prompt_orchestrator.ts:85 | the returned history starts with the old history and the user's turn |
| ChatRoute.GetUserSessionKey | src/app/api/ai/chat/route.ts:16-19 | the session key is the user id, else `x-session-id`, else `x-forwarded-for`, else 'anon', and never empty |
| ChatRoute.WantsResetAnyCase | src/app/api/ai/chat/route.ts:50 | `x-reset-session` is compared ignoring case: 'TRUE' and 'True' reset, a missing header or '1' does not |
| ChatRoute.ReadUserText | src/app/api/ai/chat/route.ts:21-34 | the text read is trimmed, and an unparsable body gives '' |
| ChatRoute.ReadUserTextFirstField | src/app/api/ai/chat/route.ts:24-30 | the first non-empty string among prompt, input, message and text decides, even when it is only white space |
| ChatRoute.WhitespacePromptHidesText | src/app/api/ai/chat/route.ts:24-30 | a non-empty prompt of white space only hides a later `text` field, whatever it holds, so the request reads as empty |
| ChatRoute.Nick | src/app/api/ai/chat/route.ts:43-44 | the e-mail's text before the first '@', '' without an e-mail |
| ChatRoute.DisplayName | src/app/api/ai/chat/route.ts:41-46 | the display name is trimmed, and it is the trimmed full name when there is one |
| ChatRoute.DisplayNameDefault | src/app/api/ai/chat/route.ts:45 | without a name and an e-mail the user is called 'parcera' |
| ChatRoute.DisplayNameFromEmail | src/app/api/ai/chat/route.ts:42-45 | without a full name or name, the e-mail's local part is used, else 'parcera' |
| ChatRoute.Initialised | src/app/api/ai/chat/route.ts:49-59 | after the reset and initialisation the key is mapped to its old state (fresh after a reset or when absent) and every other key is untouched |
| ChatRoute.InitialisedAfterReset | src/app/api/ai/chat/route.ts:51-58 | a reset leaves the key at the fresh INICIAL state with an empty history |
| ChatRoute.Respond | src/app/api/ai/chat/route.ts:73-87 | no result answers 500 and keeps the map; a result answers 200 with the assistant text and stores the new step and history |
| ChatRoute.RespondOnlyKey | src/app/api/ai/chat/route.ts:73-81 | only the request's own key can change |
| ChatRoute.PostUnauthorized | src/app/api/ai/chat/route.ts:38-39 | without a user the answer is 401 and the map is unchanged |
| ChatRoute.PostOnlyOwnKey | src/app/api/ai/chat/route.ts:36-88 | an authenticated request changes no key but its own |
| ChatRoute.PostEmptyText | src/app/api/ai/chat/route.ts:62-63 | empty text answers 400 'Texto vacío' without asking the orchestrator |
| ChatRoute.PostWithText | src/app/api/ai/chat/route.ts:65-87 | with text the orchestrator gets the stored step and history, and its outcome decides the reply and the stored entry |
| ChatRoute.ResetThenEmptyText | src/app/api/ai/chat/route.ts:50-63 | a reset with empty text still replaces what the key held |
| ChatRoute.Endpoint.constructor | src/app/api/ai/chat/route.ts:14 | the module-level map starts empty |
| ChatRoute.Endpoint.Post | src/app/api/ai/chat/route.ts:36-88 | the handler's in-place updates of `sessionStates` produce the reply and map of `PostOutcome` |
| Pattern.RunEnd | fix_v34_syntax.js:13 | a greedy `\s*` run ends where the class first fails: everything before is in the class, the next character is not |
| Pattern.LazyEnd | scripts/apply_v32_fix_final.js:8 | a lazy `.*?` followed by a literal ends within the text, after that literal |
| Pattern.LazyEndIsShortest | scripts/apply_v32_fix_final.js:8 | `.*?` stops at the first place the following literal occurs, and every character before it is in the class |
| Pattern.LazyEndAt | fix_v34_syntax.js:20 | a lazy run stops at a given occurrence of its literal when every character before it is in the class and no earlier occurrence starts there |
| Pattern.Step | fix_v34_syntax.js:13-20 | one atom's match ends within the text |
| Pattern.MatchFrom | fix_v34_syntax.js:13-20 | an anchored match of a pattern ends within the text |
| Pattern.MatchLitStep | fix_v34_syntax.js:13-20 | a literal atom matches by moving past its text |
| Pattern.MatchStarStep | fix_v34_syntax.js:13-20 | a starred atom moves past the maximal run, as JavaScript's greedy matching does when the class excludes what follows |
| Pattern.MatchDrop | fix_v34_syntax.js:13-20 | a match depends only on the text from where it starts |
| Pattern.LitStarThen | fix_v34_syntax.js:13-15 | a literal and a starred class consume the literal and its run, then the rest of the pattern matches what follows |
| Pattern.RunEndFirstOutside | fix_v34_syntax.js:13 | a run stops at the first character outside the class |
| Pattern.MatchStartsWithLiteral | fix_v34_syntax.js:13-20 | a match of a pattern that starts with a literal begins with that literal and is never empty |
| Pattern.FirstMatch | scripts/apply_v32_fix_final.js:11-14 | `String.match`: the leftmost position where the pattern matches, and no match before it |
| Pattern.FirstMatchAtChar | scripts/apply_v32_fix_final.js:11-14 | the leftmost match of a pattern starting with a character starts at that character |
| Pattern.ReplaceAllNoMatch | fix_v34_syntax.js:13-20 | a global replace of a pattern that never matches changes nothing |
| Pattern.ReplaceAllWhole | fix_v34_syntax.js:13-20 | a text the pattern matches as a whole becomes the replacement |
| FixV34.ChainedGreedySafe | fix_v34_syntax.js:13-15 | every query-chain pattern starts with a literal, and each run of 's' stops at the '.' of the next call, so greedy matching is exact |
| FixV34.ServiciosChainGreedySafe | fix_v34_syntax.js:13 | the `servicios` pattern starts with a literal and every starred class stops before the next literal, so greedy matching is exact |
| FixV34.PreguntasChainGreedySafe | fix_v34_syntax.js:15 | the same holds for the `brief_preguntas` pattern |
| FixV34.BlankJoinGreedySafe | fix_v34_syntax.js:18 | the same holds for the `.join('\s*')` pattern |
| FixV34.TextoStatementGreedySafe | fix_v34_syntax.js:20 | the same holds for the `const texto =[^;]+;` pattern |
| FixV34.Bounds | fix_v34_syntax.js:6-10 | the block's bounds satisfy start <= end <= length |
| FixV34.BoundsAreFirstOccurrences | fix_v34_syntax.js:6-10 | the block starts at the first PASO_2_ESPERANDO_SERVICIO condition and ends at the first PASO_2_ESPERANDO_CATEGORIA condition at or after it |
| FixV34.ApplyFixV34 | fix_v34_syntax.js:4-27 | the script's sequence of slices and replacements writes `FixV34(src)`, or nothing when a boundary is missing |
| FixV34.FixV34Frame | fix_v34_syntax.js:12-22 | only the block is rewritten; the text before and after it is kept |
| FixV34.FixV34Missing | fix_v34_syntax.js:8-26 | nothing is written exactly when the start is missing or no end follows it |
| FixV34.BlankJoinFixed | fix_v34_syntax.js:18 | each `.join('<white space>')` becomes `.join('\n')` |
| FixV34.TextoSpanEndsAtFirstSemicolon | fix_v34_syntax.js:20 | a `const texto =` match runs to the first ';' after it, whatever is in between |
| FixV34.IndentedChainUnmatched | fix_v34_syntax.js:13-15 | the chain patterns need a backslash right after each escaped newline, so a chain indented there is not matched |
| FixV34.ServiciosChainMissesGenerated | fix_v34_syntax.js:13 | as written, the `servicios` pattern does not match the chain the v3.3 patch generates |
| FixV34.ThreeLiteralsReplaced | fix_v34_syntax.js:13 | three literals separated by runs of one class are replaced as a whole |
| FixV34.IntendedChainFixesGenerated | fix_v34_syntax.js:13 | the intended pattern (`\\n\s*`) rewrites the generated chain whatever its indentation |
| FixV34.TextoSwallowsNextLine | fix_v34_syntax.js:20 | as written, a `const texto =` statement without its own ';' takes the next line up to that line's ';' |
| FixV34.IntendedTextoSpan | fix_v34_syntax.js:20-21 | the intended pattern, lazy up to `completo.'`, takes a `const texto =` statement whose text has one `. ` and ends in `completo.'`, and stops there, before a next line holding a ';' |
| PatchV33.HandlerHoldsGuard | apply_v33_patch.js:33-36 | the inserted handler contains the guard text the script looks for |
| PatchV33.EditsShorten | apply_v33_patch.js:11-29 | both prompt edits replace a text by a shorter one |
| PatchV33.ReplaceFirstChanges | apply_v33_patch.js:14-18 | a first-occurrence `replace` changes the text exactly when the target occurs, by the difference in length |
| PatchV33.ApplyV33Patch | apply_v33_patch.js:7-107 | the script's steps write `PatchV33(src)`, or nothing when `changed` stays false |
| PatchV33.InsertBeforeFirst | apply_v33_patch.js:96-97 | replacing the first marker by handler + '\n' + marker puts the handler and a line break just before it |
| PatchV33.InsertedBeforeFirstMarker | apply_v33_patch.js:31-99 | without the guard and with the marker, the handler goes in once, right before the first marker |
| PatchV33.NoInsertion | apply_v33_patch.js:33-96 | with the guard present or the marker absent, only the prompt edits remain |
| PatchV33.WrittenIffSomeStepChanged | apply_v33_patch.js:9-106 | the file is written exactly when a step changed the text |
| PatchV33.InsertionGuarded | apply_v33_patch.js:33 | after one run the handler is never inserted again |
| PatchV33.SecondRunWritesNothing | apply_v33_patch.js:11-106 | once the prompt targets are gone, a second run writes nothing |
| PatchV33b.ApplyV33Patch2 | apply_v33_patch2.js:6-92 | the script's steps write `PatchV33b(src)` |
| PatchV33b.CumulativeFlag | apply_v33_patch2.js:15-22 | comparing with the original after each edit is the same as asking whether some edit changed the text, because both edits shorten it |
| PatchV33b.DriversAgree | apply_v33_patch2.js:10-85 | given the same handler text, the second script writes the same file as the first: its cumulative change flag decides as the first script's per-step flags do |
| PatchV33b.SecondRunWritesNothing | apply_v33_patch2.js:26 | a second run inserts nothing |
| PatchV33b.HeadIndented | apply_v33_patch2.js:32 | a generated chain head reads backslash, 'n', then indentation |
| PatchV33b.ServiciosLineUnmatched | apply_v33_patch2.js:32 | in the generated `servicios` query line the v3.4 `servicios` repair pattern does not match where the chain starts |
| PatchV33b.PreguntasLineUnmatched | apply_v33_patch2.js:50 | in the generated `brief_preguntas` query line the v3.4 `brief_preguntas` repair pattern does not match where the chain starts |
| PatchV33b.GeneratedTextoSwallowsReply | apply_v33_patch2.js:66-67 | as written, the v3.4 `const texto =[^;]+;` pattern, matched at the statement line 66 generates, runs through line 67 to the ';' of `'text/plain; charset=utf-8'` |
| PatchV33b.GeneratedTextoIntendedSpan | apply_v33_patch2.js:66-67 | the intended lazy pattern takes exactly the statement of line 66, up to its closing `completo.'`, and leaves line 67 whole |
| ApplyFrag.ApplyFragScript | scripts/apply_frag.js:4-14 | the script's steps write `InsertFragment(src, frag)` |
| ApplyFrag.NotWrittenIff | scripts/apply_frag.js:7-8 | nothing is written exactly when the marker is missing or the handler's text is already present |
| ApplyFrag.FragmentBeforeFirstMarker | scripts/apply_frag.js:7-9 | the fragment goes in right before the first marker; the text on both sides is kept |
| ApplyFrag.SecondRunNoOp | scripts/apply_frag.js:8 | a fragment holding the guard text makes a later run a no-op |
| ApplyV32Fix.MarkerLineGreedySafe | scripts/apply_v32_fix_final.js:11 | the marker pattern's greedy white-space runs give back nothing the next literal could use |
| ApplyV32Fix.ApplyV32FixScript | scripts/apply_v32_fix_final.js:3-20 | the script's steps write `V32Fix(src)` |
| ApplyV32Fix.ReplaceMiddle | scripts/apply_v32_fix_final.js:5-7 | a replacement that differs only in the middle rewrites only that middle, at the first occurrence |
| ApplyV32Fix.TransitionRetargeted | scripts/apply_v32_fix_final.js:5-7 | retargeting a transition rewrites only the step name of its first occurrence |
| ApplyV32Fix.LiteralEditsNeedTheirTarget | scripts/apply_v32_fix_final.js:5-7 | a literal edit leaves a text without its target unchanged |
| ApplyV32Fix.GreetingSpan | scripts/apply_v32_fix_final.js:8 | the greeting edit spans from its fixed start to the first "`;" after it, with no line terminator between |
| ApplyV32Fix.FragmentAtLineBreak | scripts/apply_v32_fix_final.js:10-18 | the fragment goes in, after a line break, at the first marker match, which starts at a line break; the rest is kept |
| ApplyV32Fix.NoInsertionWritesEdited | scripts/apply_v32_fix_final.js:10-19 | without an insertion the edited text is written and the fragment plays no part |
| ApplyV32Fix.UnchangedTextStillWritten | scripts/apply_v32_fix_final.js:19 | the file is written even when no edit applied |
| Middleware.ShouldCheckCsrfIff | middleware.ts:6-12 | CSRF is enforced exactly for POST and PATCH under '/api/auth/register' or '/api/profile' |
| Middleware.AccessToken | middleware.ts:58-60 | the token is the `sb-access-token` cookie when that is truthy |
| Middleware.TokenPrecedence | middleware.ts:58-60 | the cookie wins; otherwise the header with its first 'Bearer ' removed |
| Middleware.PassResponse.constructor | middleware.ts:33 | `NextResponse.next()` starts with no cookies |
| Middleware.PassResponse.EnsureCsrfCookie | middleware.ts:18-30 | without a truthy `csrf_token` cookie a fresh one is set (not httpOnly, lax, '/', secure in production, one day); with one nothing changes |
| Middleware.Run | middleware.ts:32-109 | outside `config.matcher` the request goes on with no check and no cookie; inside it the middleware's steps compute `Decide` and the pass-through response's cookies |
| Middleware.CsrfCookieOnlyWhenMissing | middleware.ts:18-29 | the response gets a `csrf_token` cookie, holding the fresh UUID, exactly when the request has none |
| Middleware.CsrfRejection | middleware.ts:38-51 | a checked request is refused with 403 unless cookie and header are non-empty and equal and the origin is acceptable |
| Middleware.OriginRule | middleware.ts:42-43 | without a configured origin or an Origin header any origin passes, otherwise only an exact match |
| Middleware.UnprotectedPasses | middleware.ts:53-56 | an unprotected path passes once the CSRF step is behind it |
| Middleware.PrefixProtection | middleware.ts:54-109 | inside the middleware protection is a prefix test ('/application' counts as protected, '/ap' does not), but the matcher never sends '/application' to it, so it is served ungated |
| Middleware.CsrfRoutesMatched | middleware.ts:6-109 | every route the CSRF check guards is selected by the matcher |
| Middleware.ProtectedSubtreesGated | middleware.ts:54-109 | '/app', '/dashboard' and '/api/protected' and everything below them are both selected by the matcher and protected |
| Middleware.OutsideMatcherUntouched | middleware.ts:98-109 | paths outside the matcher, such as '/admin/auth-events' or '/applications', pass with no check |
| Middleware.MissingSessionRedirects | middleware.ts:62-82 | on a protected path, no token, no configuration or no user redirects to /login with `redirectedFrom` |
| Middleware.StatusGate | middleware.ts:84-95 | a status other than 'activo' (any case) answers 403 on /api/ paths and redirects with inactive=1 elsewhere; no status passes |
| Middleware.AppStatusFirst | middleware.ts:84 | the app metadata's status is read before the user metadata's |
| Middleware.ActivoAnyCase | middleware.ts:85 | 'ACTIVO' and 'Activo' both count as active |
| SupabaseServer.Or | src/lib/supabase/server.ts:43 | `a \|\| b`: the first truthy value, else the second |
| SupabaseServer.UserHasRoleCases | src/lib/supabase/server.ts:41-46 | no user or no role refuses; a role with an empty list is enough; otherwise the list must contain the role |
| SupabaseServer.UserMetadataFirst | src/lib/supabase/server.ts:43 | the user metadata's role is read before the app metadata's |
| SupabaseServer.CaseSensitive | src/lib/supabase/server.ts:45 | the comparison is exact: 'admin' does not satisfy ['Admin'] |
| SupabaseServer.NoTokenNoCall | src/lib/supabase/server.ts:31-34 | without a header, or with nothing after 'Bearer ', auth is never asked |
| SupabaseServer.TokenPassedOn | src/lib/supabase/server.ts:32-38 | a non-empty token is passed to `getUser` as it is |
| RequireAuth.Gate.constructor | src/components/RequireAuth.tsx:15 | the gate starts not ready and with no redirects |
| RequireAuth.Gate.RunEffect | src/components/RequireAuth.tsx:17-40 | one effect run sets `ready` when the checks pass, and otherwise adds a redirect to `redirectTo` |
| RequireAuth.MountAndRun | src/components/RequireAuth.tsx:13-53 | a freshly mounted gate renders its children after one run exactly when the checks pass |
| RequireAuth.NoSessionNoChildren | src/components/RequireAuth.tsx:23-26 | without a session nothing is rendered, whatever the roles |
| RequireAuth.NoRolesAnySession | src/components/RequireAuth.tsx:29 | an absent or empty role list lets any session through |
| RequireAuth.MissingRoleRefused | src/components/RequireAuth.tsx:31-37 | with a non-empty list, a user without a role is turned away |
| RequireAuth.HasRoleIff | src/components/RequireAuth.tsx:31-33 | the role matches when it equals some allowed role ignoring case |
| RequireAuth.CaseInsensitiveUnlikeServer | src/components/RequireAuth.tsx:32-33 | the client ignores case where the server's `userHasRole` does not |
| RequireAuth.RoleSourcesDiffer | src/components/RequireAuth.tsx:31 | the client reads `user.role` where the server reads `app_metadata.role` |
| Roles.NormalizeRoleIff | src/lib/supabase/roles.ts:33-35 | only exactly 'administrador' gives the administrator role; everything else, 'Administrador' included, is 'solicitante' |
| Roles.NormalizeRoleIdempotent | src/lib/supabase/roles.ts:33-35 | normalising a normalised code changes nothing |
| Roles.EnsureRoleSteps | src/lib/supabase/roles.ts:5-31 | the function's early returns compute `EnsureRole` |
| Roles.ExistingRoleNotSeeded | src/lib/supabase/roles.ts:13 | an existing id is returned and nothing is inserted |
| Roles.UnexpectedErrorGivesNull | src/lib/supabase/roles.ts:17-20 | a lookup error other than PGRST116 gives null with no insert |
| Roles.SeededRow | src/lib/supabase/roles.ts:22-30 | otherwise the role is inserted with its display name, and the new id is returned, or null if the insert failed or gave no id |
| Roles.ResultTruthyOrNull | src/lib/supabase/roles.ts:13-30 | a returned id is never 0 |
| StorageCache.DropTrailingSlash | src/lib/supabase/cache.ts:3 | one '/' at the very end of the base is removed, nothing else changes |
| StorageCache.DropLeadingSlashes | src/lib/supabase/cache.ts:4 | removing leading '/' never lengthens the path |
| StorageCache.LeadingSlashesGone | src/lib/supabase/cache.ts:4 | the cleaned path is the suffix after the leading run of '/', and does not start with '/' |
| StorageCache.CleanPathIdempotent | src/lib/supabase/cache.ts:4 | cleaning is idempotent |
| StorageCache.UrlShape | src/lib/supabase/cache.ts:1-6 | the URL is the cleaned base, '/storage/v1/object/public/' and the cleaned path |
| StorageCache.OneSlashOnly | src/lib/supabase/cache.ts:3 | only one trailing '/' of the base goes |
| StorageCache.MissingIsEmpty | src/lib/supabase/cache.ts:2-4 | a missing base or path is the empty string |
| Email.LastIndexOfChar | src/app/register/page.tsx:9 | the last position of a character, or none when it does not occur |
| Email.LettersNoDot | src/app/register/page.tsx:9 | a run of `[A-Za-z]` holds no dot |
| Email.ValidMatchesRegex | src/app/register/page.tsx:9 | whatever the decision procedure accepts the regular expression matches |
| Email.SplitIsFound | src/app/register/page.tsx:9 | every split the regular expression can use is found by the decision procedure |
| Email.IsValidEmailIff | src/app/register/page.tsx:8-10 | the validator accepts exactly what `/^(?=.{5,255}$)[A-Za-z0-9._%+-]+@[A-Za-z0-9.-]+\.[A-Za-z]{2,}$/` matches |
| Email.LastDotAt | src/app/register/page.tsx:9 | a dot with no dot after it is the last one |
| Email.OneAt | src/app/register/page.tsx:9 | every accepted address holds exactly one '@' |
| Email.AcceptsCompanyAddress | src/app/register/page.tsx:9 | 'ana@digix.co' is accepted |
| Email.RefusesShortTld | src/app/register/page.tsx:9 | a one-letter top-level domain is refused |
| Email.RefusesTwoAts | src/app/register/page.tsx:9 | a second '@' is refused |
| Email.TwoAtsRefused | src/app/register/page.tsx:9 | an address holding two '@' anywhere is refused, since the later one falls where only domain characters are allowed |
| Email.AllowedDomainIgnoresCase | src/app/register/page.tsx:11-13 | the '@digix.co' test ignores case |
| RegisterPage.ErrorsDistinct | src/app/register/page.tsx:35-51 | the five validation messages are pairwise different |
| RegisterPage.FirstFailureOrder | src/app/register/page.tsx:34-53 | the reported message is the first failing check in the order name, format, domain, length, confirmation; none means every check passed |
| RegisterPage.ThreeCharactersEnough | src/app/register/page.tsx:34 | a name of three or more characters after trimming passes |
| RegisterPage.TwoCharacterName | src/app/register/page.tsx:34 | a two-character name is measured in UTF-16 code units |
| RegisterPage.NameLengthInCodeUnits | src/app/register/page.tsx:34 | two astral characters pass the name test, two accented letters do not |
| RegisterPage.PasswordChecks | src/app/register/page.tsx:46-53 | a short password is refused whatever the confirmation; a long one must equal the confirmation |
| RegisterPage.ResendEnabledIff | src/app/register/page.tsx:146 | resend is enabled exactly for a valid address of the company domain |
| RegisterPage.ResendEnabledPassesAddressChecks | src/app/register/page.tsx:38-146 | an address resend accepts passes the submit's address checks |
| RegisterPage.Form.constructor | src/app/register/page.tsx:26-28 | empty banners, not loading |
| RegisterPage.Form.Submit | src/app/register/page.tsx:31-84 | a failing check sets its message and sends nothing; otherwise the sign-up goes out with role 'solicitante', the name and `<origin>/login`, and its answer sets the banners, loading ending false |
| RegisterPage.Form.Resend | src/app/register/page.tsx:86-100 | both banners are cleared and the resend's answer sets one |
| RegisterPage.SubmitOnFreshPage | src/app/register/page.tsx:31-84 | on a fresh page the sign-up is requested exactly when every check passes |
| LoginPage.FirstFailureOrder | src/app/login/page.tsx:21-28 | the format is checked before the length; no message means both pass |
| LoginPage.SameMessagesAsRegistration | src/app/login/page.tsx:22-26 | the login messages are the registration page's |
| LoginPage.NoDomainRestriction | src/app/login/page.tsx:19-28 | an address outside the company domain passes login's checks though registration refuses it |
| LoginPage.Form.constructor | src/app/login/page.tsx:15-16 | no error, not loading, no navigation |
| LoginPage.Form.Submit | src/app/login/page.tsx:19-52 | a failing check sets its message only; otherwise sign-in is attempted, an error or a throw sets its message, a user is sent to /app, and loading ends false |
| ForgotPasswordPage.OneBannerAfterRequest | src/app/forgot-password/page.tsx:30-38 | after a request exactly one banner is non-empty, the message only on success |
| ForgotPasswordPage.Form.constructor | src/app/forgot-password/page.tsx:13-15 | empty banners, not loading |
| ForgotPasswordPage.Form.Submit | src/app/forgot-password/page.tsx:17-41 | banners cleared; an invalid address sets the format error and requests nothing; otherwise the reset goes out to `<origin>/reset-password` and its answer sets one banner |
| ForgotPasswordPage.SubmitTwice | src/app/forgot-password/page.tsx:19-20 | no banner of an earlier submit survives the next |
| ResetPasswordPage.BadLinkCases | src/app/reset-password/page.tsx:19-20 | an absent or empty type or 'recovery' is accepted, any other type flagged |
| ResetPasswordPage.FirstFailureOrder | src/app/reset-password/page.tsx:30-37 | length before confirmation; the update needs both |
| ResetPasswordPage.Form.constructor | src/app/reset-password/page.tsx:10-14 | empty banners, not loading, nothing scheduled |
| ResetPasswordPage.Form.CheckLink | src/app/reset-password/page.tsx:18-23 | a bad link sets 'Enlace inválido'; otherwise nothing changes |
| ResetPasswordPage.Form.Submit | src/app/reset-password/page.tsx:25-53 | banners cleared; a failing check sets its message; otherwise the update's answer sets one banner, a success also scheduling /login?reset=1 |
| ResetPasswordPage.OpenAndSubmit | src/app/reset-password/page.tsx:18-53 | whatever the link, whether the update is asked for depends on the passwords alone |
| ResendConfirmation.Outcomes | src/app/api/auth/resend-confirmation/route.ts:9-22 | an unparsable body is 400, then a bad format, then a foreign domain, both 400; a good address is decided by its `users` row |
| ResendConfirmation.ByStatusCases | src/app/api/auth/resend-confirmation/route.ts:17-22 | no row is 404, an 'activo' row in any case is 200, every other row 410 |
| ResendConfirmation.OnlyNormalizedEmailMatters | src/app/api/auth/resend-confirmation/route.ts:12 | bodies whose addresses normalise alike get the same reply |
| ResendConfirmation.NormalizedString | src/app/api/auth/resend-confirmation/route.ts:12 | a string address is trimmed and lower-cased |
| ResendConfirmation.CaseNeverMatters | src/app/api/auth/resend-confirmation/route.ts:12-19 | the case of the address typed never changes the reply |
| ResendConfirmation.MissingEmailIsFormatError | src/app/api/auth/resend-confirmation/route.ts:12-13 | a missing or falsy `email` is a format error |
| ResendConfirmation.StatusThroughString | src/app/api/auth/resend-confirmation/route.ts:19 | 'ACTIVO' is active; a row without a status is not |
| ConfirmRoute.Only | src/app/api/auth/confirm/route.ts:15-33 | `.maybeSingle()`: a row exactly when one row matches |
| ConfirmRoute.HandleGet | src/app/api/auth/confirm/route.ts:4-65 | the handler's reads and writes compute `Confirm` over the users, confirmations and profiles, and the Auth update it asks for |
| ConfirmRoute.NoTokenNoWrites | src/app/api/auth/confirm/route.ts:6-7 | an absent or empty token answers 400 and writes nothing |
| ConfirmRoute.ConfirmationRowWins | src/app/api/auth/confirm/route.ts:11-26 | a single confirmation row with the token is used before any profile |
| ConfirmRoute.ProfileFallback | src/app/api/auth/confirm/route.ts:27-38 | otherwise a single profile holding the token is used; with neither, 400 'Token inválido' |
| ConfirmRoute.ProfileDefaultsPending | src/app/api/auth/confirm/route.ts:37 | a profile's missing status defaults to 'pending' |
| ConfirmRoute.ConfirmedWritesNothing | src/app/api/auth/confirm/route.ts:40-42 | an already confirmed record redirects to /app and writes nothing |
| ConfirmRoute.ExpiredMarked | src/app/api/auth/confirm/route.ts:44-49 | an expired or expiry-less record is marked 'expired' and answers 400; users are untouched |
| ConfirmRoute.FailedActivationMarksNothing | src/app/api/auth/confirm/route.ts:52-53 | a failed activation answers 400 and writes nothing |
| ConfirmRoute.LiveTokenActivates | src/app/api/auth/confirm/route.ts:52-64 | a live record activates its user and is marked 'confirmed'; a profile's custom fields become exactly `{ status: 'confirmed' }` |
| ConfirmRoute.ActivateOnlyThatUser | src/app/api/auth/confirm/route.ts:52 | activation sets that user's status to 'activo' and changes nothing else |
| WebhookRoute.VerifySignatureIff | src/app/api/supabase/webhooks/auth/route.ts:5-12 | no secret accepts anything; with a secret a missing or empty signature is refused and any other must equal the HMAC digest |
| WebhookRoute.ActivateEmail | src/app/api/supabase/webhooks/auth/route.ts:32 | every `users` row with that address becomes 'activo'; the others are unchanged |
| WebhookRoute.HandlePost | src/app/api/supabase/webhooks/auth/route.ts:14-37 | a bad signature is 401 and a bad body 400, both writing nothing; otherwise the event is appended to `auth_events`, users are activated as `Confirms` says, and the reply is `{ ok: true }` |
| WebhookRoute.TypeFallback | src/app/api/supabase/webhooks/auth/route.ts:22 | the type is `type`, else `event`, lower-cased, else '' |
| WebhookRoute.UserFallback | src/app/api/supabase/webhooks/auth/route.ts:23 | the user is `user`, else `data.user` |
| WebhookRoute.TopLevelEvent | src/app/api/supabase/webhooks/auth/route.ts:22-23 | the type and e-mail of an event holding both at top level |
| WebhookRoute.ConfirmsByType | src/app/api/supabase/webhooks/auth/route.ts:31-32 | a user with a string e-mail is activated exactly when the type mentions 'confirm' or 'verified', by the lower-cased address |
| WebhookRoute.ConfirmingTypes | src/app/api/supabase/webhooks/auth/route.ts:22-32 | the same test on the type as sent, before lower-casing |
| WebhookRoute.SignupNeverConfirms | src/app/api/supabase/webhooks/auth/route.ts:31 | a 'signup' event activates nobody |
| WebhookRoute.ActivationConfined | src/app/api/supabase/webhooks/auth/route.ts:32 | activation only sets the status of rows with that address |
| HistoryRoute.GetGuards | src/app/api/ai/history/route.ts:8-21 | no caller is 401; no `users` row, or one with a falsy id, is 404 |
| HistoryRoute.GetHistory | src/app/api/ai/history/route.ts:24-37 | a read error other than 'no row' is 400; no profile is an empty history; otherwise `chat_history` when it is an array, else empty |
| HistoryRoute.HandleDelete | src/app/api/ai/history/route.ts:43-85 | the handler's steps compute `Delete` on the profiles and change no other table |
| HistoryRoute.DeleteKeepsOtherKeys | src/app/api/ai/history/route.ts:73-83 | clearing a profile empties its history, keeps its other keys and touches no other profile |
| HistoryRoute.DeleteCreatesEmptyProfile | src/app/api/ai/history/route.ts:67-72 | without a profile one is created holding exactly `{ chat_history: [] }` |
| HistoryRoute.ReadFailureWipesOtherKeys | src/app/api/ai/history/route.ts:61-71 | a failed read is taken for no profile, and the upsert drops the profile's other keys |
| HistoryRoute.DeleteThenGetIsEmpty | src/app/api/ai/history/route.ts:24-85 | after a successful delete the history reads empty |
| HistoryRoute.FailedWriteChangesNothing | src/app/api/ai/history/route.ts:72-82 | a failed write answers 400 and changes nothing |
| ChatPage.FirstWhere | src/app/app/page.tsx:139 | the first position where a match starts, as `String.prototype.match` finds it, or none when there is none |
| ChatPage.LastAssistant | src/app/app/page.tsx:86-228 | the latest assistant message, or none when there is none |
| ChatPage.AffirmativeFromSpec | src/app/app/page.tsx:88 | trying the alternatives of the pattern left to right succeeds exactly when one of them starts the text and is followed by a word boundary |
| ChatPage.AccentedSi | src/app/app/page.tsx:88 | 'sí' counts as affirmative only when a word character follows, because `\b` does not treat 'í' as a word character |
| ChatPage.PlainSi | src/app/app/page.tsx:88 | 'si' counts only at the end of the text or before a non-word character |
| ChatPage.SiExamples | src/app/app/page.tsx:88 | 'sí' alone is not affirmative, 'si' is |
| ChatPage.ConfirmNeedsQuestion | src/app/app/page.tsx:86-89 | the confirmed flag needs the latest answer to ask '¿es esto correcto?' |
| ChatPage.HistoryToSend | src/app/app/page.tsx:83 | the history sent is every earlier message and then the new one, as role and content |
| ChatPage.SetContentAt | src/app/app/page.tsx:106-126 | only the messages with that id get the new content; every other message is kept as it was |
| ChatPage.SetContentTwice | src/app/app/page.tsx:123-126 | the last update of a message wins |
| ChatPage.SetContentFresh | src/app/app/page.tsx:72-123 | with a fresh id, only the appended placeholder changes |
| ChatPage.TicketEnd | src/app/app/page.tsx:230 | a match of `/\bS-\d+\b/i` at a position ends at least three characters further on |
| ChatPage.TicketEndIff | src/app/app/page.tsx:230 | the greedy digit run gives the only end the pattern can have at that position |
| ChatPage.FirstTicketIsLeftmost | src/app/app/page.tsx:230-232 | the ticket is the leftmost match, and none is found exactly when nothing matches |
| ChatPage.UserTextAppend | src/app/app/page.tsx:135-136 | an answer adds nothing to the joined user text; a user message adds a line |
| ChatPage.LineEnd | src/app/app/page.tsx:186-187 | `[^\n]*` runs to the next newline or the end of the text |
| ChatPage.KeywordLineFindIsLeftmost | src/app/app/page.tsx:186-187 | a keyword line is found exactly when one matches, and the leftmost one is returned, to the end of its line |
| ChatPage.AcabadoCases | src/app/app/page.tsx:185-192 | both finishes are joined with ' · ', one is given alone, none gives '' |
| ChatPage.DimensionAt | src/app/app/page.tsx:171 | a dimension match has two digit runs of 2 to 4 digits and the unit 'mm' or 'cm' in any case |
| ChatPage.PaperSizeWins | src/app/app/page.tsx:170-172 | a paper size anywhere wins, and the leftmost one is the size |
| ChatPage.DimensionsOtherwise | src/app/app/page.tsx:171-172 | otherwise the leftmost dimensions are written 'W x H unit'; with neither, '' |
| ChatPage.AnswersIgnored | src/app/app/page.tsx:134-136 | appending an answer never changes the summary |
| ChatPage.OnlyUserTextMatters | src/app/app/page.tsx:134-136 | histories with the same user text have the same summary |
| ChatPage.ProductosAtMostOne | src/app/app/page.tsx:204-212 | at most one product, kept exactly when one of its five fields is non-empty |
| ChatPage.EffectRecomputesOnlyOnNewTicket | src/app/app/page.tsx:227-239 | the summary is rebuilt only for a ticket different from the stored one, and a second run changes nothing |
| ChatPage.Page.constructor | src/app/app/page.tsx:10-37 | a signed-in page: empty input and messages, the default model, no ticket and no summary |
| ChatPage.Page.Send | src/app/app/page.tsx:55-131 | blank input sends nothing; otherwise the message and a placeholder are appended, the input is cleared, the request carries the prompt, model, history, confirmed flag and any bearer token, and the placeholder ends with the answer's final content |
| ChatPage.Page.ReadStream | src/app/app/page.tsx:117-126 | the placeholder ends with the trimmed concatenation of the chunks, or a waiting notice when that is empty |
| ChatPage.Page.Receive | src/app/app/page.tsx:104-130 | the placeholder ends with the answer's final content: the streamed text, the JSON answer or the error notice |
| ChatPage.Page.DetectTicket | src/app/app/page.tsx:227-239 | the ticket and summary become what `AfterMessages` gives |
| ChatPage.SendAppendsTwo | src/app/app/page.tsx:66-126 | with fresh ids a send appends exactly the user's message and the answer |
| AuthEventsPage.EmailFallback | src/app/admin/auth-events/page.tsx:43 | a row's address is the user's e-mail, else the payload's, else '' |
| AuthEventsPage.FilteredIsSublist | src/app/admin/auth-events/page.tsx:42-158 | the rows shown are a subsequence of the events, so 'Mostrando n de m' has n ≤ m |
| AuthEventsPage.FilteredMembers | src/app/admin/auth-events/page.tsx:42-49 | a row is shown exactly when it is an event that passes every switched-on filter |
| AuthEventsPage.NoFiltersKeepsAll | src/app/admin/auth-events/page.tsx:45-47 | with every filter empty, every event is shown |
| AuthEventsPage.EmailFilterIgnoresCase | src/app/admin/auth-events/page.tsx:45 | filters equal up to case keep the same rows |
| AuthEventsPage.EmailFilterMatches | src/app/admin/auth-events/page.tsx:45 | the e-mail filter keeps exactly the rows whose lower-cased address contains the lower-cased filter |
| AuthEventsPage.BoundsInclusive | src/app/admin/auth-events/page.tsx:46-47 | both ends of the date range are inclusive |
| AuthEventsPage.Page.constructor | src/app/admin/auth-events/page.tsx:14-21 | no rows, loading, no error, no filters |
| AuthEventsPage.Page.FetchEvents | src/app/admin/auth-events/page.tsx:23-36 | a successful reply replaces the rows with `data.events` and clears the error; a failure keeps the rows and sets 'Error <status>' or the thrown message; loading ends false |
| AuthEventsPage.Page.ClearFilters | src/app/admin/auth-events/page.tsx:105-109 | the three filters become empty and every row is shown |
| SmokeScript.Lines | scripts/smoke-orchestrator-tools.mjs:29 | splitting on `/\r?\n/` gives at least one line, none holding a newline |
| SmokeScript.LinesWithoutCr | scripts/smoke-orchestrator-tools.mjs:29 | without carriage returns it is a split on '\n' |
| SmokeScript.StripQuotesWrapped | scripts/smoke-orchestrator-tools.mjs:33 | a quoted value loses its two outer quotes and nothing else |
| SmokeScript.StripQuotesPlain | scripts/smoke-orchestrator-tools.mjs:33 | a value without a quote at either end is kept |
| SmokeScript.StripQuotesOneSided | scripts/smoke-orchestrator-tools.mjs:33 | a quote on one side only is removed |
| SmokeScript.ParseAccepts | scripts/smoke-orchestrator-tools.mjs:30-33 | a key of `[A-Z0-9_]`, '=' and a rest without line terminators is loaded with the key and the unquoted rest |
| SmokeScript.ParseShape | scripts/smoke-orchestrator-tools.mjs:30-33 | every loaded line has exactly that shape |
| SmokeScript.FirstNonEmpty | scripts/smoke-orchestrator-tools.mjs:34 | the first non-empty value, or '' when every value is empty |
| SmokeScript.WinnerStep | scripts/smoke-orchestrator-tools.mjs:34 | one line's effect on a variable's eventual value |
| SmokeScript.LoadAllWinner | scripts/smoke-orchestrator-tools.mjs:29-35 | loading the lines in order keeps a non-empty value; otherwise a variable ends with the first non-empty value the file gives it, '' when the file gives only empty ones, and its old state when the file does not define it |
| SmokeScript.NonEmptyNeverOverwritten | scripts/smoke-orchestrator-tools.mjs:34 | a variable already non-empty is never overwritten |
| SmokeScript.UndefinedUntouched | scripts/smoke-orchestrator-tools.mjs:29-35 | a variable no line defines keeps its state |
| SmokeScript.ProcessEnv.constructor | scripts/smoke-orchestrator-tools.mjs:34 | the environment as given |
| SmokeScript.ProcessEnv.LoadEnvLocal | scripts/smoke-orchestrator-tools.mjs:25-36 | a missing file changes nothing; otherwise the environment becomes `LoadAll` of the file's lines |
| SmokeScript.Spell | scripts/smoke-orchestrator-tools.mjs:56-58 | one character of the alphabet per draw, in order |
| SmokeScript.SpellAlphabet | scripts/smoke-orchestrator-tools.mjs:56 | every drawn character is a lower-case ASCII letter or a digit |
| SmokeScript.RandStr | scripts/smoke-orchestrator-tools.mjs:55-60 | exactly `n` characters, spelling the first `n` draws |
| SmokeScript.NormalizeArgs | scripts/smoke-orchestrator-tools.mjs:129-137 | a lone first argument naming a mode becomes the mode and the e-mail goes; otherwise nothing changes |
| SmokeScript.CredsPrecedence | scripts/smoke-orchestrator-tools.mjs:66-98 | arguments win, then a saved file with both fields; without the service key, or when creating fails, the script exits; a created user is `smoke_` and six characters at example.com, with a 13-character password 'Aa…!' |
| SmokeScript.ResetHeader | scripts/smoke-orchestrator-tools.mjs:114-121 | `x-reset-session: true` is sent exactly when asked for, beside the bearer and JSON headers |
| SmokeScript.OnlyFullRunResets | scripts/smoke-orchestrator-tools.mjs:142-180 | only the first call of a full run resets the session |
| VerifyGeminiKey.HashGuardRedundant | scripts/verify-gemini-key.mjs:17 | the '#' test adds nothing to the prefix test |
| VerifyGeminiKey.KeyOf | scripts/verify-gemini-key.mjs:13-21 | none when no line starts with the prefix; otherwise the second '='-piece of the first such line |
| VerifyGeminiKey.SelectedLineHasKey | scripts/verify-gemini-key.mjs:18 | that piece is the text after the prefix up to the next '=' |
| VerifyGeminiKey.FindKey | scripts/verify-gemini-key.mjs:12-21 | the loop with its `break` computes `KeyOf` of the lines |
| VerifyGeminiKey.Substring | scripts/verify-gemini-key.mjs:36-41 | `substring` never gives more than the string |
| VerifyGeminiKey.NegativeStartIsWhole | scripts/verify-gemini-key.mjs:41 | `substring(-4)` is the whole string |
| VerifyGeminiKey.NetworkOnlyWithWellFormedKey | scripts/verify-gemini-key.mjs:26-40 | Gemini is tried exactly when a key was found and is well-formed; without a key line the script stops as missing |
| VerifyGeminiKey.PrintedKey | scripts/verify-gemini-key.mjs:41 | the printed key is its first ten characters, '...' and then the whole key |
| VerifyGeminiKey.CrlfFirstLine | scripts/verify-gemini-key.mjs:13 | splitting a CRLF file on '\n' leaves the '\r' on the key line |
| VerifyGeminiKey.CrlfKeyRejected | scripts/verify-gemini-key.mjs:13-38 | a CRLF file's key always stops the script before Gemini |
| VerifyGeminiKey.FormatExample | scripts/verify-gemini-key.mjs:32 | 'AIza' and 35 key characters pass; 34, or a stray '=', do not |
| Text.Lower | src/app/register/page.tsx:12 | `toLowerCase` maps each character on its own and keeps the length |
| Text.Trim | src/app/register/page.tsx:34 | `trim` leaves no white space at either end and never lengthens the string |
| Text.TrimIdempotent | src/app/register/page.tsx:34 | trimming twice is trimming once |
| Text.Utf16Length | src/app/register/page.tsx:46 | `.length` counts UTF-16 code units: at least the characters, at most twice them, and equal when every character is in the Basic Multilingual Plane |
| Text.IndexOf | fix_v34_syntax.js:6 | `indexOf` finds the leftmost occurrence, and none exactly when the text does not occur |
| Text.ReplaceFirst | scripts/apply_v32_fix_final.js:5-7 | a literal `replace` leaves a string without its target unchanged |
| Text.ReplaceFirstShape | scripts/apply_v32_fix_final.js:5-7 | otherwise only the first occurrence is replaced |
| Text.Split | scripts/verify-gemini-key.mjs:13 | `split` gives at least one piece, none holding the separator |
| Text.SplitJoin | scripts/verify-gemini-key.mjs:13 | joining the pieces with the separator gives back the input |
| Seqs.FilterMembers | src/app/admin/auth-events/page.tsx:42 | `filter` keeps exactly the elements that satisfy the predicate |
| Seqs.FilterIsSubsequence | src/app/admin/auth-events/page.tsx:42 | `filter` keeps the elements in their order |
| Seqs.SortBy | src/lib/ai/herramientas.ts:218-220 | `sort` returns a permutation of its input |
| Seqs.SortBySorted | src/lib/ai/herramientas.ts:218-220 | the result is sorted by the key |
| Seqs.SortByStable | src/lib/ai/herramientas.ts:218-220 | elements of equal key keep their relative order, as the stable `Array.prototype.sort` does |

## Left out

- Network and SDK calls are inputs of the model. This covers Supabase queries, auth, storage and RPC; Gemini chat, `generateContent` and streaming; and `fetch`. A call the code awaits becomes a parameter holding its answer, or a function value.
- The clock, `Math.random()`, `crypto.randomUUID` and the HMAC-SHA256 digest of RFC 2104 are parameters too: integers, draws, a fresh UUID and an uninterpreted `(secret, body) -> hex` function. Date parsing is a `string -> int` parameter, and the NaN an unparsable date gives is not modelled.
- Environment variables are strings, with '' standing for unset.
- Case mapping covers ASCII and Latin-1 only. The NFD fold of `herramientas.ts` is a concrete map of the Spanish accented letters to their base letters.
- `normalizeText` is a function parameter of `ServiceMatcher`: the patch scripts call it, but its definition is not part of the shown code.
- Regular expressions are written as hand-made predicates, or as the small greedy matcher `Pattern`, not as a general regular-expression engine. The matcher is exact for the patterns used, because each repeated class excludes what follows it.
- `JNull` stands for both `null` and `undefined`. Spreading a non-object gives `{}`.
- Concurrency is not modelled: neither the races on the module-level `sessionStates` map, nor the timing of the streamed reply, the `AbortController` timeout or the `TextDecoder`.
- React rendering, JSX and browser APIs (cookies, `window`, `setTimeout`) are not modelled. Only the state the handlers set is.
- File and log I/O are not modelled. The patch scripts are functions from the file's text to the text written, and logging is dropped.
- PatchV33, PatchV33b: the handler text after its first lines is a parameter `rest`. The handler's behaviour is modelled by `ServiceMatcher`. Replacement strings hold no `$` patterns.
- ServiceMatcher: the two v3.3 patches generate raw line breaks inside string literals, which do not parse. The handler is modelled as it behaves once those lines are repaired.
- PatchV33.SecondRunWritesNothing: stated under the hypothesis that the prompt edits' targets no longer occur after the first run. That they are gone is not derived from the literals. The guarded insertion's idempotence is proved outright.
- HistoryRoute: the 500 reply of the `catch` blocks, and the message details of database errors beyond the strings passed in, are not modelled.
- ConfirmRoute.HandleGet: the writes other than the `users` update are assumed to succeed, as the code ignores their errors. `.single()` and `.maybeSingle()` reads are the model's own lookups.
- WebhookRoute.HandlePost: the user update never throws in the model. The source swallows a throw and still answers `{ ok: true }`, which is the model's reply too.
- ResendConfirmation: `.single()` is modelled as a lookup by address (`statusOf`), not as the query.
- ChatPage: six of the extraction patterns are the parameter `rx`: cliente, fechaEntrega, lugarEntrega, productoCantidad, papelGramaje and impresionCaras. The paper size, the dimensions, the keyword-to-line-end patterns and the ticket are modelled concretely. Message timestamps, the mount effect, `handleLogout`, the display name and the greeting are left out.
- ChatPage.Page.Send: the message ids are parameters, where the source takes them from `Date.now()`. The answer (error status, body, chunks, thrown error) is an input.
- AuthEventsPage: a truthy non-string e-mail is read through `String`, where the source's `toLowerCase` would throw. A truthy `events` that is not an array is read as no rows.
- SmokeScript: the exit for missing Supabase variables (lines 47-50), the final deletion of the created test user (lines 256-263), the file writes, `authToken`, the sleeps, the logging and the printed replies are left out.
- VerifyGeminiKey: the Gemini call and its error classification (lines 43-77) are left out, as network code.
- Middleware: the matcher is modelled as exact routes and `/:path*` subtrees; Next.js's handling of trailing slashes, locales and `/_next/data` requests is left out.
- PatchV33b.DriversAgree: holds for one shared handler text. The two scripts insert different handler texts: the query chains are separate lines at apply_v33_patch.js:39-41 and 59-65 but one line holding `\\n` escapes at apply_v33_patch2.js:32 and 50; the `.join` and `texto` lines differ too (apply_v33_patch.js:80-81 against apply_v33_patch2.js:65-66).
- FixV34.TextoStatementIntended: the intended pattern is modelled from `const texto =` on, not from the line's indentation. The replacement text at fix_v34_syntax.js:21 itself holds a raw line break inside a single-quoted literal; JavaScript's parsing of the rewritten file is not modelled.
- The global replace of fix_v34_syntax.js:20 also meets the no-match statement (apply_v33_patch2.js:76), which has no ';' either and so takes line 77 in the same way; the lemmas exhibit the defect at line 66 only, the first statement of the block.
- VerifyGeminiKey.Check: the reported length is in UTF-16 code units, but the shown `substring(0, 10)` counts characters. The two differ only for a key with a character above the Basic Multilingual Plane among its first ten, where JavaScript may cut a surrogate pair in half and a Dafny string cannot hold half a pair.
- `scripts/v32-fix3.js` is not part of this model: it does not parse as JavaScript, so none of it runs.
- The network test scripts, the thin admin and protected handlers, `src/lib/email/notifications.ts`, the landing and logout pages, the browser Supabase client and the tests are not part of this model.

## Findings

| source | as written | input that shows it | evidently intended | confidence | as-written member | corrected member |
|---|---|---|---|---|---|---|
| fix_v34_syntax.js:13-16 | the query-chain patterns write `\\n\\s*`, which asks for a backslash right after each escaped newline | the chain apply_v33_patch2.js:32 generates: `supabaseAuthed!\n` followed by spaces and `.from('servicios')…` | `\\n\s*`: white space after the escaped newline, so the generated chain is rewritten | not executed | FixV34.ServiciosChainMissesGenerated | FixV34.IntendedChainFixesGenerated |
| fix_v34_syntax.js:20 | `/const texto =[^;]+;/` runs to the first ';' after the statement | the ambiguous-reply statement of apply_v33_patch2.js:66, which has no ';', followed by its reply line apply_v33_patch2.js:67 with `'text/plain; charset=utf-8'` | the ambiguous-reply statement alone, up to its closing `completo.'`, the statement the replacement text of line 21 stands for | not executed | PatchV33b.GeneratedTextoSwallowsReply | PatchV33b.GeneratedTextoIntendedSpan |
