# Verified model of a database client's core

The repository is a desktop database client written in Go. These Dafny files model the parts of it that
carry algorithms, parsers, protocols and state, and prove what its comments promise of them: for all
inputs, all runs and all interleavings. Where the code does not keep a promise, the exact condition under
which it does is proved, beside an input that shows the condition is needed.

| files | what they model |
|---|---|
| `Fuzzy` | the palette's matcher: a quadratic dynamic program, proved to find a best placement of all |
| `Script` | the order a schema's views are created in: a depth-first sort that falls back on a cycle |
| `Lexer`, `LexText`, `LexReads` | the SQL lexer that resumes from line to line, its agreement with one reading of the whole text, and what it finds in texts written to be found |
| `Tokens`, `Layout`, `LayoutShape`, `Cut`, `Format` | the SQL formatter: every token is written once, where it should, and a script says the same afterwards |
| `Wkb`, `WkbRound`, `WkbReader`, `WkbSays` | well-known binary: the format, its round trip, the two readers of it, and that they read the same numbers |
| `Vault` | locking, unlocking and re-keying stored secrets, stopped at any step |
| `Diff`, `DiffLaws`, `DiffFields`, `DiffSame`, `Sync`, `Place` | comparing schemas, what it is for them to be the same, and taking the chosen differences |
| `Schemafile` | a database saved as files and read back |
| `Query`, `QueryMeaning` | the query designer: what is reached, the order joins are written in, and what they mean |
| `SchemaCache` | the cache of object names, in every interleaving of loads and invalidations |
| `Plugin`, `PluginStream` | the conversation with a plugin, from the plugin's writer to the caller's last row |
| `Pending`, `PendingReplay` | pending edits as an overlay, and the changeset that replays it |
| `TableDesign`, `PlanDdl` | the table designer's columns, its list of changes, and the renames made first |
| `Paging` | filtered pages, a result read while it is fetched from, and rows handed out page by page |
| `Xlsx` | escaping text in a worksheet, and naming its cells |
| `Numerals`, `Sequences`, `Strings`, `Wrappers` | numbers in decimal, places in a list, trimming and joining text, options |

Code that updates things in place is a class or a method over arrays here too, proved against a function of
the values; what the code promises is then proved of that function. Locks and channels are modelled as
atomic steps, and a property of a run is a property of every list of steps. Letters, keyword tables, case
folding, number formatting and ignore patterns are parameters: the proofs hold whatever they are. Sealing is
ideal: a sealed secret is its key and its text, and opens with that key alone.

`dafny verify dfyconfig.toml` checks the whole project (Dafny 4.11).

## Where the code and its comments differ

- `fileName` says runs of dashes collapse, but a dash that is itself in the name does not collapse with the one
  written for the unsafe run after it: `a- b` becomes `a--b` (internal/schemafile/name.go:37-57,
  `Schemafile.DashesStand`).
- `Coordinates` says it fails as `WKT` does; it fails on the same bytes but for trailing ones, which only `WKT`
  refuses, and its messages differ, so errors are compared here by class (internal/model/geocoords.go:68-78).
- Nothing stops a source from writing to a request after its handler returned: columns and rows ask
  only whether columns were said (plugin/serve.go:278-308, `Plugin.RowAfterDone`).
- `begin` says a key already loading begins no other load; the landing of an older generation clears the mark and lets one more in
  (internal/app/schema.go:397-429, `SchemaCache.TwiceAtOnce`). `SchemaCache.OneAtATime` says exactly when.
- `finish` may close a channel the reader is about to send on (internal/plugin/host.go:160-200,
  `Plugin.ReaderCrashes`).
- A statement ends at a token outside brackets that reads `;` whatever its kind, so a semicolon alone on a line of a
  string or comment ends one (internal/sqlfmt/layout.go:131-153, `SqlFormat.FormatCanSayOtherwise`,
  `SqlFormat.StringCanSayOtherwise`).

The comments are silent on these, and a caller may still want to know:

- A failed or timed-out read is cached as an answer of nothing until an Invalidate (internal/app/schema.go:256-395,
  `SchemaCache.FailureIsEmpty`), and a list of objects is put together from four questions, so it need not be one the
  source ever had (internal/app/schema.go:324-352, `SchemaCache.TornList`). What is there all along is in it
  (`SchemaCache.EveryNameThere`).
- The target's length is unlimited, but its sentinel is -2^30: past 2^30 + 12 letters a match can be missed
  (internal/fuzzy/fuzzy.go:20-97, `Fuzzy.AnswersNo`).
- A left or right join written from its other end keeps its word, and so means another join
  (internal/query/render.go:196-213, `QueryMeaning.OuterSwapped`).
- Putting back a column's old name does not ask whether another has taken it (internal/app/design.go:142-167,
  `TableDesign.RevertClashes`).
- A changeset names values as they are stored, so two columns of one stored name share one value
  (internal/app/pending.go:308-315, `PendingReplay.SharedName`).
- Two routines that print alike with their parameters are one to the comparison, and which of them it sees depends on
  how their files sort (internal/schemafile/schemafile.go:379-408, `Schemafile.RoutinesClash`).
- An operator is read as far as its characters go, so one that stands directly before `--` or `/*` takes it in, and the
  comment is read as code (internal/sqllex/lexer.go:259-264, `SqlReads.CommentTakenIn`).
- Lists of names are compared as text with commas between, so a name with a comma in it can hide a difference
  (internal/diff/match.go:164, `DiffFields.KeysClash`).

## Model

| member | source | states |
|---|---|---|
| Fuzzy.Match | internal/fuzzy/fuzzy.go:22-110 | Whatever the length of the target, what is found places the letters in order and is worth exactly what is returned (less the length penalty). In a target of at most 2^30 + 12 letters a placement is found exactly when the folded query is a subsequence, and no other scores higher. An empty query matches with no positions. |
| Fuzzy.PlacementIffSubsequence | internal/fuzzy/fuzzy.go:22-29 | Letters appear in order, left out letters and all, exactly when they can be placed at increasing positions. |
| Fuzzy.WorthIs | internal/fuzzy/fuzzy.go:12-96 | What a placement is worth, in one sum: ten for each letter, twelve for each at the start of a word, six for the target's first letter, eight for each letter straight after the one before, less one for each letter skipped and a quarter of those before the first. |
| Fuzzy.Place | internal/fuzzy/fuzzy.go:38-110 | Over folded letters: what is found is a placement of the score given, whatever the length; up to 2^30 + 12 letters it is found exactly when there is one, and of greatest score. |
| Fuzzy.TableOptimal | internal/fuzzy/fuzzy.go:46-86 | Up to 2^30 + 12 letters every cell of the table is the greatest score of any placement ending there, or impossible exactly when there is none. |
| Fuzzy.RowFollows | internal/fuzzy/fuzzy.go:46-86 | A row filled from an optimal row is optimal. |
| Fuzzy.CellFollows | internal/fuzzy/fuzzy.go:46-86 | A cell filled by the recurrence from an optimal row above it is optimal. |
| Fuzzy.ExtendCell | internal/fuzzy/fuzzy.go:60-86 | The best over adjacent and gapped predecessors, plus what the place earns, is the best of all placements that end here. |
| Fuzzy.Table | internal/fuzzy/fuzzy.go:38-86 | The rows filled one after another keep to the recurrence throughout, and the last is the one the cells, taken one by one, come to. |
| Fuzzy.FirstRow | internal/fuzzy/fuzzy.go:46-57 | The first letter may stand wherever it occurs, worth its place less a quarter of the distance to it; elsewhere it is impossible. |
| Fuzzy.FillRow | internal/fuzzy/fuzzy.go:60-86 | One running maximum of best plus place stands for every gapped predecessor: each cell is linked to one that earns it, and up to 2^30 + 12 letters none earns more. |
| Fuzzy.Cell | internal/fuzzy/fuzzy.go:66-86 | A cell is what the recurrence over every earlier place gives, though only two candidates are looked at. |
| Fuzzy.Candidate | internal/fuzzy/fuzzy.go:66-82 | The adjacent predecessor with its bonus and the running maximum less the gap are together no worse than any predecessor, and the one chosen attains its value. |
| Fuzzy.BestEnd | internal/fuzzy/fuzzy.go:88-97 | The end chosen exceeds the sentinel and no cell exceeds it, or none exceeds the sentinel. |
| Fuzzy.WayBack | internal/fuzzy/fuzzy.go:99-110 | The positions collected backwards are the placement the links back spell. |
| Fuzzy.TraceScores | internal/fuzzy/fuzzy.go:46-110 | The placement spelt by the links back ends where it was followed from and is worth exactly the cell. |
| Fuzzy.TableChained | internal/fuzzy/fuzzy.go:46-86 | Every filled cell points back at a filled cell and differs from it by what the step and the place earn. |
| Fuzzy.Answer | internal/fuzzy/fuzzy.go:88-110 | The greatest cell of the last row answers the whole question: there is one exactly when a placement exists, and its placement is a best one. |
| Fuzzy.NothingBetter | internal/fuzzy/fuzzy.go:88-97 | No placement of the whole query exceeds the greatest cell of the last row. |
| Fuzzy.SentinelReached | internal/fuzzy/fuzzy.go:34-86 | Past 2^30 + 12 letters, a first letter just after the start and a second at the very end leave the whole last row at the sentinel: nothing is found although the letters are there in order. |
| Fuzzy.AnswersNo | internal/fuzzy/fuzzy.go:22-97 | So for every greater length there is a target that Match answers no to and that has the letters in order: 2^30 + 12 is the exact bound. |
| Fuzzy.RunMaxTops | internal/fuzzy/fuzzy.go:60-66 | Above the sentinel, the running maximum is no less than any cell it has passed. |
| Script.InDependencyOrder | internal/app/script.go:162-221 | Fewer than two objects, a failed question or a cycle leave the list as it was; otherwise the result is a permutation with each object before everything that selects from it. It ends on every graph. |
| Script.Sorter.Visit | internal/app/script.go:190-209 | A no means a real cycle; a yes leaves finished objects listed once, each after all that select from it, and the object asked for finished. |
| Script.OrderedIsAcyclic | internal/app/script.go:162-167 | Only a graph without a cycle can be put in such an order. |
| Script.PathRises | internal/app/script.go:162-167 | In such an order, places only rise along a path. |
| Script.CycleFound | internal/app/script.go:190-196 | Meeting an object that is still being visited closes a cycle. |
| Script.AllSettled | internal/app/script.go:210-221 | The finished list, reversed, is a permutation of all the objects in dependency order. |
| Script.ReversedAt | internal/app/script.go:217-221 | Reversing puts each object at the mirror of its place. |
| Script.Places | internal/app/script.go:172-176 | Every reference and nothing else has a place, and it is a place where the reference stands. |
| Script.SelectingFrom | internal/app/script.go:177-188 | The places kept are exactly those, other than its own, of dependents that are among the objects being ordered. |
| Script.GraphOf | internal/app/script.go:172-188 | There is an edge exactly where the source says one listed object selects from another. |
| SqlLex.TokensTile | internal/sqllex/lexer.go:155-277 | From every state, the tokens of a line cover each of its bytes once and in order. |
| SqlLex.Lexer.LexLine | internal/sqllex/lexer.go:155-277 | The tokens tile the line whatever state it begins in, are those the lexeme-by-lexeme reading gives, and the state returned is what the next line is to be read in. The reused buffer holds these and nothing older. |
| SqlLex.Lexer.Emit | internal/sqllex/lexer.go:279-284 | Appends the token unless it is empty. |
| SqlLex.Lexer.MergeBack | internal/sqllex/lexer.go:286-293 | Tokens from a place on become one token; those before it stay. |
| SqlLex.Lexer.ContinueBlockComment | internal/sqllex/lexer.go:295-324 | Stops just past the closer that brings the depth to nothing, or at the end of the line with the depth to carry on with; one comment token covers what was read. |
| SqlLex.Lexer.ContinueString | internal/sqllex/lexer.go:326-359 | Reads to the closing quote, doubled quotes and backslash escapes passed over, or to the end of the line still inside; a quote at the start is passed over as an opener even on a later line. |
| SqlLex.Lexer.ContinueDollarQuote | internal/sqllex/lexer.go:361-374 | Reads past the first closing tag, or to the end of the line still inside. |
| SqlLex.Lexer.LexQuotedIdent | internal/sqllex/lexer.go:376-393 | The loop ends where the lexeme does: past the closing quote, or at the end of the line. What it finds for a name is `SqlReads.NameReads`. |
| SqlLex.Lexer.LexBracketIdent | internal/sqllex/lexer.go:395-407 | Reads past the first closing bracket, or to the end of the line. |
| SqlLex.Lexer.LexNumber | internal/sqllex/lexer.go:409-430 | Reads digits, points and underscores, or a hexadecimal run, with one exponent. |
| SqlLex.Lexer.LexWord | internal/sqllex/lexer.go:432-462 | Takes the longest word, and calls it keyword, type, function (only when called) or identifier. |
| SqlLex.Lexer.DollarTag | internal/sqllex/lexer.go:482-508 | A dollar quote opener is recognised with its tag exactly when two dollars enclose a tag. |
| SqlLex.Lexer.LexDollar | internal/sqllex/lexer.go:233-245 | The opener and the body become one string token, the buffer otherwise unchanged. |
| SqlLex.Lexer.LexOne | internal/sqllex/lexer.go:175-277 | Adds exactly one token, ending where the lexeme does, and leaves the lexer in the state past it. |
| SqlLex.Lexer.LexPlain | internal/sqllex/lexer.go:230-277 | Likewise for lexemes no quote, bracket or comment begins. |
| SqlLex.Lexer.LexRest | internal/sqllex/lexer.go:250-277 | Likewise for numbers, words, operators, punctuation and what is none of these. |
| SqlLex.Lexer.Finish | internal/sqllex/lexer.go:162-174 | Whatever the line before left open is read first, as one token from the start of the line. |
| SqlLex.ScanWhile | internal/sqllex/lexer.go:435-440 | Stops at the first byte past the run. |
| SqlLex.ScanComment | internal/sqllex/lexer.go:301-324 | The byte-wise scan finds the same end, depth and closing as reading the comment construct by construct. |
| SqlLex.ScanString | internal/sqllex/lexer.go:330-359 | The byte-wise scan finds the string end that reading it construct by construct gives. |
| SqlLex.ScanNumber | internal/sqllex/lexer.go:409-430 | The scan ends where the number does. |
| SqlLex.FindCloser | internal/sqllex/lexer.go:362-374 | Finds the first place the closing tag stands, or that it does not. |
| SqlReads.NameReads | internal/sqllex/lexer.go:376-393 | Any name, its own quotes doubled, put in quotes and followed by no quote, is one quoted name of exactly its length, for every quote the dialect takes. |
| SqlReads.NameRuns | internal/sqllex/lexer.go:376-393 | With no closing quote it runs to the end of the line. |
| SqlReads.DoubledApart | internal/sqllex/lexer.go:376-393 | Two names are alike in quotes only when they are the same. |
| SqlReads.BracketReads | internal/sqllex/lexer.go:395-407 | A name in brackets runs to the first closing one, or to the end of the line. |
| SqlReads.StringReads | internal/sqllex/lexer.go:326-359 | Any text in quotes, doubled or, where the dialect has them, with backslashes, is one string; not closed, it runs to the end of the line and is open there. |
| SqlReads.DollarReads | internal/sqllex/lexer.go:361-374 | Between dollar tags, a body is one string up to the first closing tag. |
| SqlReads.LineCommentReads | internal/sqllex/lexer.go:176-210 | Each mark that begins a comment of a line makes one of all that is left of it. |
| SqlReads.CommentReads | internal/sqllex/lexer.go:295-324 | A text that neither closes a comment nor, where they nest, opens one is one comment between its marks. |
| SqlReads.WordReads | internal/sqllex/lexer.go:432-462 | A word is read whole: a keyword, a type, a function exactly when one and a bracket opens after it past white space, and else a name. |
| SqlReads.NumberReads | internal/sqllex/lexer.go:409-430 | Digits, points and underscores are one number. |
| SqlReads.ExponentReads | internal/sqllex/lexer.go:409-430 | So they are with an exponent, its sign and all its digits. |
| SqlReads.NoExponent | internal/sqllex/lexer.go:409-430 | A letter e that no digits follow is not of the number. |
| SqlReads.OperatorReads | internal/sqllex/lexer.go:259-264 | An operator is as many operator characters as stand together, where they begin no comment. |
| SqlReads.CommentTakenIn | internal/sqllex/lexer.go:259-264 | So one directly before a comment takes in what opens it, and the comment is read as code. |
| SqlReads.NamedReads | internal/sqllex/lexer.go:230-258 | A colon and a word are one parameter. |
| SqlReads.NumberedReads | internal/sqllex/lexer.go:211-230 | A dollar and digits are one parameter, not the start of a tag. |
| SqlReads.OneReads | internal/sqllex/lexer.go:211-277 | A question mark is a parameter, and each bracket, comma and semicolon a token of its own. |
| SqlText.SameKinds | internal/sqllex/lexer.go:60-93 | Lexed line by line with the state carried across, every byte gets the kind that one automaton over the whole text gives it, as long as no comment depth wraps and no string line begins with its own quote. |
| SqlText.CommentAgrees | internal/sqllex/lexer.go:295-324 | A depth kept in a byte and a depth kept as a number read a comment alike exactly when the number never comes down to a multiple of 256 short of the close. |
| SqlText.WrappedCommentCloses | internal/sqllex/lexer.go:301-324 | At depth 257 the first closer ends the comment for the lexer and not for the text: the condition is needed. |
| SqlText.ResumeAgrees | internal/sqllex/lexer.go:326-345 | A line inside a string is read as the whole text reads it exactly when it does not begin with the string's quote. |
| SqlText.OneQuoteLater | internal/sqllex/lexer.go:330-345 | Passing over a leading quote always changes where the string ends. |
| SqlText.CommentGoesOn | internal/sqllex/lexer.go:295-324 | A comment cut at a newline goes on, at the depth left, as it would have uncut. |
| SqlText.StringGoesOn | internal/sqllex/lexer.go:326-359 | So does a string. |
| SqlText.IndexGoesOn | internal/sqllex/lexer.go:361-374 | So does the search for a closing tag, which holds no newline. |
| SqlText.RegionGoesOn | internal/sqllex/lexer.go:71-93 | So does any region: closed on its line it is the same, open it goes on with what the line left. |
| SqlText.RegionCut | internal/sqllex/lexer.go:71-93 | The kinds of a text whose first line lies in a region are the region's on that line followed by the kinds of what is left. |
| SqlText.KindsGoOn | internal/sqllex/lexer.go:71-93 | The same for one newline. |
| SqlText.CalmGoesOn | internal/sqllex/lexer.go:71-93 | What is asked of a text holds of what is left of it after a line. |
| SqlTokens.LexOn | internal/sqlfmt/tokens.go:55-96 | Line by line with the offset and the state carried, yields exactly the tokens of the whole text, blank ones dropped, and the state at its end. |
| SqlTokens.KeepLine | internal/sqlfmt/tokens.go:71-92 | A line's tokens are kept in order, blank ones dropped, each at its offset in the text. |
| SqlTokens.KeepOne | internal/sqlfmt/tokens.go:74-90 | A blank token is dropped and any other kept with its text and place. |
| SqlTokens.KeptLine | internal/sqlfmt/tokens.go:63-96 | The lexer's own tokens for a line, kept, are the ones the text has there. |
| SqlTokens.ReadLine | internal/sqlfmt/tokens.go:63-96 | One line more has been read, and what is left is still to be read from where it stopped. |
| SqlTokens.IsSame | internal/sqlfmt/tokens.go:102-137 | True exactly when the two lists have one length and, place by place, one kind and one text, but for keywords, types and functions, which may differ in case. |
| SqlCut.FirstCut | internal/sqllex/lexer.go:155-277 | A line cut after its first lexeme still begins with that lexeme. |
| SqlCut.HeadCut | internal/sqlfmt/tokens.go:45-96 | A text cut after a semicolon or its last token begins with the lexeme it began with. |
| SqlCut.ToksInPlace | internal/sqlfmt/tokens.go:45-96 | Every token stands where it says, after the one before it. |
| SqlCut.EndsNormal | internal/sqlfmt/format.go:60-80 | A text whose last token is punctuation, or that says nothing, ends outside any string or comment. |
| SqlCut.ReadFrom | internal/sqlfmt/format.go:76-84 | Read on its own from the first token or one that follows punctuation, the rest of a text has exactly the rest of the tokens. |
| SqlCut.ReadUpTo | internal/sqlfmt/format.go:76-84 | Cut after such a token, a text has exactly the tokens up to it. |
| SqlCut.JoinToks | internal/sqlfmt/format.go:66-90 | Lexing composes at a newline: the tokens of both texts, the second read in the state the first ends in. |
| SqlCut.SaidAnywhere | internal/sqlfmt/tokens.go:102-124 | What a text's tokens say does not depend on where the text stands. |
| SqlCut.SameSaid | internal/sqlfmt/tokens.go:102-124 | Same depends on what tokens say and on nothing else about them. |
| SqlCut.Peel | internal/sqlfmt/tokens.go:63-96 | The tokens of a text are its first lexeme, if not blank, and the tokens of what follows it. |
| SqlCut.PeelNewline | internal/sqlfmt/tokens.go:63-96 | A leading newline adds no token and changes no state. |
| SqlCut.NothingAfter | internal/sqlfmt/tokens.go:63-96 | After the last token there is no bracket left. |
| SqlLayout.StatementKeeps | internal/sqlfmt/layout.go:122-129 | For any tokens, brackets and CASEs balanced or not, the runs written concatenate to exactly the statement's tokens, in order. |
| SqlLayout.ClauseKeeps | internal/sqlfmt/layout.go:229-249 | So for a clause: head and body, each token once. |
| SqlLayout.ItemsKeep | internal/sqlfmt/layout.go:271-276 | So for a list of items. |
| SqlLayout.PartsKeep | internal/sqlfmt/layout.go:271-328 | So for any run of parts, with every nested call on fewer tokens. |
| SqlLayout.ItemKeeps | internal/sqlfmt/layout.go:278-287 | So for one item, along a line or opened out. |
| SqlLayout.GroupKeeps | internal/sqlfmt/layout.go:289-328 | So for whichever way an item is opened: conjunctions, CASE, bracket or not at all. |
| SqlLayout.BracketKeeps | internal/sqlfmt/layout.go:313-327 | So for a bracket: up to it, its inside, and from where it closes. |
| SqlLayout.InnerKeeps | internal/sqlfmt/layout.go:313-327 | So for what is inside: a subquery's clauses or a list. |
| SqlLayout.ClausesKeep | internal/sqlfmt/layout.go:122-129 | So for a run of clauses. |
| SqlLayout.CaseKeeps | internal/sqlfmt/layout.go:330-348 | So for a CASE, ended or not. |
| SqlLayout.ArmsKeep | internal/sqlfmt/layout.go:330-348 | So for its arms and its END. |
| SqlLayout.LeafKeeps | internal/sqlfmt/layout.go:410-423 | So for tokens broken only after line comments. |
| SqlLayout.CutAfter | internal/sqlfmt/layout.go:131-153 | The pieces are never empty, concatenate to the tokens, and are cut just after each separator outside brackets: a script's statements and a list's items. |
| SqlLayout.CutBefore | internal/sqlfmt/layout.go:454-475 | The pieces are never empty, concatenate to the tokens, and begin where the test says outside brackets. |
| SqlLayout.PiecesAfter | internal/sqlfmt/layout.go:131-153 | Whatever the brackets, pieces cut after a separator are non-empty and concatenate to the tokens. |
| SqlLayout.PiecesBefore | internal/sqlfmt/layout.go:454-475 | Whatever the brackets, pieces cut before a word are non-empty and concatenate to the tokens. |
| SqlLayout.FindMatching | internal/sqlfmt/layout.go:477-492 | Finds the bracket that closes the one opened, or that there is none. |
| SqlLayout.FindCase | internal/sqlfmt/layout.go:359-374 | Finds the first CASE outside any bracket, or that there is none. |
| SqlLayout.FindEnd | internal/sqlfmt/layout.go:376-394 | Finds the END of the CASE, nested ones passed over, or that there is none. |
| SqlLayout.FindOpen | internal/sqlfmt/layout.go:396-408 | Finds the first bracket that closes and has something in it, or that there is none. |
| SqlLayout.FindBreak | internal/sqlfmt/layout.go:251-269 | True exactly when a clause word stands inside brackets. |
| SqlLayout.FindLineComment | internal/sqlfmt/inline.go:81-89 | True exactly when a line comment is among the tokens. |
| SqlLayout.TopLevel | internal/sqlfmt/layout.go:211-227 | Marks the clause words outside brackets, and no other token. |
| SqlLayout.CutClauses | internal/sqlfmt/layout.go:155-192 | The clauses cut are those the heads found in turn give; their tokens are the statement's. |
| SqlLayout.ClausesOf | internal/sqlfmt/layout.go:155-192 | Heads and bodies in order concatenate to the statement, and none is longer than it. |
| SqlLayout.ClauseSizes | internal/sqlfmt/layout.go:155-192 | No clause has more tokens than the statement, so laying one out ends. |
| SqlLayout.WriteInline | internal/sqlfmt/inline.go:15-26 | Along a line, tokens are written in order with a space exactly where spaceBetween asks for one, SQL's words cased. |
| SqlLayout.WriteOne | internal/sqlfmt/layout.go:122-129 | Writes exactly the lines of the statement's layout. |
| SqlShape.DepthCounts | internal/sqlfmt/layout.go:131-153 | How deep a place is: the brackets opened before it less those closed. |
| SqlShape.CutWhereItSays | internal/sqlfmt/layout.go:131-153 | A script is cut after each semicolon outside brackets and nowhere else, and a body after each such comma: every piece but the last ends in one, and none has one before its end. |
| SqlShape.CutBeforeWords | internal/sqlfmt/layout.go:426-475 | A condition is cut before each AND and OR outside brackets and nowhere else, and a CASE before each WHEN and ELSE. |
| SqlShape.CutAtClauses | internal/sqlfmt/layout.go:155-228 | A statement's clauses begin exactly at its clause words at depth nought; each takes in just the words that belong to its name and goes on to where the next begins. |
| SqlShape.ClauseShape | internal/sqlfmt/layout.go:230-270 | A clause that fits the width, with nothing in it that asks for more lines, is one line; any other is its name on a line and its body beneath, deeper. |
| SqlShape.WholeClausesFit | internal/sqlfmt/layout.go:230-251 | Every line that holds a whole clause keeps to the width, however deep in the statement it is. |
| SqlShape.ShortStatement | internal/sqlfmt/layout.go:122-129 | Where every clause fits, a statement is its clauses, one to a line at the left. |
| SqlShape.DotsTouch | internal/sqlfmt/inline.go:36-58 | A dot and a cast touch both sides, and a comma what is before it. |
| SqlShape.CallsTouch | internal/sqlfmt/inline.go:36-80 | A name and the bracket that calls it touch, and so does what is in it. |
| SqlShape.OthersStandOff | internal/sqlfmt/inline.go:36-80 | A bracket marked as a list of columns stands off, and so does one after a word that makes no call. |
| SqlShape.ChoiceWide | internal/sqlfmt/layout.go:122-129 | One statement written out: a SELECT of two columns is two lines, words in capitals and a space after the comma. |
| SqlShape.ChoiceNarrow | internal/sqlfmt/layout.go:230-294 | The same in ten columns or fewer: the columns go beneath, one to a line and one indent in. |
| SqlLayout.Builder.WriteLine | internal/sqlfmt/layout.go:504-508 | Appends one line, its indent included, and nothing else, to what the builder holds; the nested calls end. |
| SqlLayout.Builder.WriteClause | internal/sqlfmt/layout.go:229-249 | Appends a clause's lines, and nothing else, to what the builder holds; the nested calls end. |
| SqlLayout.Builder.WriteItems | internal/sqlfmt/layout.go:271-276 | Appends a body's lines, and nothing else, to what the builder holds; the nested calls end. |
| SqlLayout.Builder.WriteParts | internal/sqlfmt/layout.go:271-328 | Appends the lines of a run of parts, and nothing else, to what the builder holds; the nested calls end. |
| SqlLayout.Builder.WriteItem | internal/sqlfmt/layout.go:278-287 | Appends an item's lines, and nothing else, to what the builder holds; the nested calls end. |
| SqlLayout.Builder.WriteGroup | internal/sqlfmt/layout.go:289-328 | Appends the lines of an item opened out, and nothing else, to what the builder holds; the nested calls end. |
| SqlLayout.Builder.WriteBracket | internal/sqlfmt/layout.go:313-327 | Appends a bracket's lines, and nothing else, to what the builder holds; the nested calls end. |
| SqlLayout.Builder.WriteInner | internal/sqlfmt/layout.go:313-327 | Appends the lines inside a bracket, and nothing else, to what the builder holds; the nested calls end. |
| SqlLayout.Builder.WriteClauses | internal/sqlfmt/layout.go:122-129 | Appends a run of clauses, and nothing else, to what the builder holds; the nested calls end. |
| SqlLayout.Builder.WriteCaseOpening | internal/sqlfmt/layout.go:330-338 | Appends what stands before a CASE, and the CASE, saying how deep its arms go, and nothing else, to what the builder holds; the nested calls end. |
| SqlLayout.Builder.WriteCase | internal/sqlfmt/layout.go:330-348 | Appends a CASE's lines, and nothing else, to what the builder holds; the nested calls end. |
| SqlLayout.Builder.WriteArms | internal/sqlfmt/layout.go:330-348 | Appends the arms' lines and the END, and nothing else, to what the builder holds; the nested calls end. |
| SqlLayout.Builder.WriteLeaf | internal/sqlfmt/layout.go:410-423 | Appends lines ended after each line comment, and nothing else, to what the builder holds; the nested calls end. |
| SqlFormat.FormatSays | internal/sqlfmt/format.go:52-104 | The tokens of the formatted script are Same as those of the script, provided each semicolon the script is cut at, outside brackets and with something after it, is punctuation. |
| SqlFormat.FormatCanSayOtherwise | internal/sqlfmt/layout.go:131-153 | Where comments nest, a comment with a semicolon alone on a line, outside brackets, comes out saying something else: the proviso is needed. |
| SqlFormat.StringCanSayOtherwise | internal/sqlfmt/layout.go:131-153 | So does a string where double quotes make one too: of its four lines the last two come out on one, which the still open string reads as one token. |
| SqlFormat.StringFormatted | internal/sqlfmt/format.go:52-104 | What becomes of that string. |
| SqlFormat.MarkedEnds | internal/sqlfmt/layout.go:99-120 | Marking the brackets of columns moves no cut. |
| SqlFormat.SplitFormatted | internal/sqlfmt/format.go:52-104 | What becomes of that comment: split at its semicolon, a blank line put inside it, and its end glued onto one line. |
| SqlFormat.ScriptSays | internal/sqlfmt/format.go:66-90 | From any statement on, the output says what the script's tokens from that statement on say. |
| SqlFormat.StatementSays | internal/sqlfmt/format.go:66-90 | What is written for one statement says what its tokens say and, unless it is the last, ends outside any string or comment. |
| SqlFormat.WrittenSays | internal/sqlfmt/format.go:76-84 | A statement copied as its original bytes reads as exactly the tokens it was. |
| SqlFormat.LaidOutSays | internal/sqlfmt/format.go:92-104 | A statement laid out and accepted reads back Same without its last newline. |
| SqlFormat.PieceStands | internal/sqlfmt/layout.go:131-153 | Each statement is a run of the tokens at its offset, every one but the last ended at a semicolon outside brackets. |
| SqlFormat.Format | internal/sqlfmt/format.go:52-90 | The output is each statement laid out where that says the same, else as written, a blank line between; the count returned is of those left as written. |
| SqlFormat.WriteStatement | internal/sqlfmt/format.go:66-90 | Writes one statement, never as nothing, and counts it as left exactly when its layout would not say the same or it ends inside a string or comment. |
| SqlFormat.LayOut | internal/sqlfmt/format.go:92-104 | Accepts the layout exactly when its re-lexing is Same as the statement. |
| SqlFormat.MarkColumnLists | internal/sqlfmt/layout.go:99-120 | Marks just those brackets in which a table's columns are defined, changing nothing else. |
| WkbRound.RoundTrip | internal/model/geometry.go:41-51 | Reading the bytes of any geometry, in either byte order and dimension marking and with anything around it, recovers the tree and stops at exactly the end of its bytes (section 8 of OGC 06-103r4). |
| WkbRound.ReadBack | internal/model/geometry.go:151-262 | Whatever is read, from any bytes, is a geometry whose bytes are exactly the bytes read. |
| WkbRound.Apart | internal/model/geometry.go:151-262 | No geometry's bytes begin another's. |
| WkbRound.GeometryReads | internal/model/geometry.go:151-169 | A geometry is read at a place exactly when its bytes stand there, and reading stops at their end. |
| WkbRound.ShapeReads | internal/model/geometry.go:171-230 | The same for what follows the header. |
| WkbRound.PartsRead | internal/model/geometry.go:204-230 | The same for the members of a geometry of many, each of the kind it must be. |
| WkbRound.HeaderReads | internal/model/geometry.go:64-117 | The same for the byte order, the word in both its dimension markings, and the SRID. |
| WkbRound.RunReads | internal/model/geometry.go:247-262 | The same for a counted run of positions. |
| WkbRound.RingsRead | internal/model/geometry.go:187-203 | The same for a polygon's rings. |
| WkbRound.PositionReads | internal/model/geometry.go:232-245 | The same for one position of two to four numbers. |
| WkbRound.CountReads | internal/model/geometry.go:137-149 | A count is accepted and read exactly when what it counts has room in the bytes left. |
| WkbRound.U32Reads | internal/model/geometry.go:119-126 | Four bytes read as a number exactly when they are that number's, in either byte order. |
| WkbRound.NumberReads | internal/model/geometry.go:128-135 | Eight bytes read as a number's pattern exactly when they are its own, in either byte order. |
| WkbReader.WKT | internal/model/geometry.go:33-51 | Succeeds exactly on the bytes of some geometry and nothing more, and then writes that geometry's text; bytes left over are refused and counted. |
| WkbReader.Coordinates | internal/model/geocoords.go:68-78 | Succeeds exactly on bytes that begin with some geometry, whatever follows, and then has that geometry's points and lines, in order, each place's x the first number of its position in the tree and its y the second; a failure has none. |
| WkbReader.DrawnAt | internal/model/geocoords.go:81-186 | What is drawn of a geometry, in order: a place for each position of a point that is not hollow, and a line for each run that is not empty, x the first number of each and y the second. |
| WkbSays.ReadBoth | internal/model/geocoords.go:68-78 | Both readings of one point's bytes: the text says the place's x, a space and its y; of one line's, the same of each of its places in turn. |
| WkbSays.PointSays | internal/model/geometry.go:233-245 | The text of a point in the plane, not hollow, is "POINT(", its x, a space, its y and ")". |
| WkbSays.LineSays | internal/model/geometry.go:248-262 | A line's text is its places so said, with commas between. |
| WkbSays.PolygonSays | internal/model/geometry.go:187-203 | A polygon's is its rings so said. |
| WkbSays.EmptySays | internal/model/geometry.go:152-172 | With nothing in it a geometry is its name, its letters for a third and a fourth number, and EMPTY. |
| WkbSays.TextBegins | internal/model/geometry.go:152-172 | With something in it, its name, its letters and a bracket. |
| WkbSays.MemberSays | internal/model/geometry.go:204-228 | A member of a collection is written with its name, and of any other kind of many without. |
| WkbSays.LittlePoint | internal/model/geometry.go:70-135 | The 21 bytes of POINT(1 2), the least byte first, are read so. |
| WkbSays.BigPoint | internal/model/geometry.go:70-135 | And the greatest byte first. |
| WkbSays.SridPoint | internal/model/geometry.go:70-117 | And with PostGIS's SRID before them. |
| WkbSays.Marked | internal/model/geometry.go:84-110 | The two ways a third and a fourth number are marked, PostGIS's and ISO's, are read alike. |
| WkbSays.NotNumbers | internal/model/geometry.go:233-245 | An infinity is a number and a NaN is not. |
| WkbReader.BeginsIff | internal/model/geometry.go:41-51 | Bytes begin with a geometry exactly when one is read, and then it is that one. |
| WkbReader.WholeIff | internal/model/geometry.go:41-51 | They are a geometry and nothing more exactly when reading stops at their end. |
| WkbReader.Reader.ReadU32 | internal/model/geometry.go:119-126 | Reads the four bytes at the cursor and moves past them, or refuses and stays. |
| WkbReader.Reader.ReadF64 | internal/model/geometry.go:128-135 | Reads the eight bytes at the cursor and moves past them, or refuses and stays. |
| WkbReader.Reader.ReadCount | internal/model/geometry.go:137-149 | Reads a count and refuses one the bytes left could not hold. |
| WkbReader.Reader.ReadHeader | internal/model/geometry.go:64-117 | Reads what stands before a geometry, with the same errors as the byte-level reading, and stops where that does. |
| WkbReader.Reader.ReadGeometry | internal/model/geometry.go:151-169 | Writes the text of exactly the geometry read at the cursor and stops at its end; ends on any bytes. |
| WkbReader.Reader.ReadShape | internal/model/geometry.go:171-230 | Writes the text of the shape read, telling an empty one apart, and stops at its end. |
| WkbReader.Reader.ReadRings | internal/model/geometry.go:187-203 | Writes the texts of the rings read. |
| WkbReader.Reader.ReadParts | internal/model/geometry.go:204-230 | Writes the texts of the members read, refusing one of a wrong kind. |
| WkbReader.Reader.ReadPart | internal/model/geometry.go:204-230 | Writes one member's text, named only in a collection. |
| WkbReader.Reader.ReadPoint | internal/model/geometry.go:232-245 | Writes a position, and says whether it is nothing but NaN. |
| WkbReader.Reader.ReadPoints | internal/model/geometry.go:247-262 | Writes a counted run, and says whether it is empty. |
| WkbReader.Reader.ReadRun | internal/model/geometry.go:247-262 | Writes the positions of a run in order. |
| WkbReader.Reader.ReadPositions | internal/model/geocoords.go:80-87 | Adds exactly the points and lines of the geometry the text reader would read here, stopping at the same place with the same class of error. |
| WkbReader.Reader.ReadShapePositions | internal/model/geocoords.go:89-150 | The same for the shape after a header. |
| WkbReader.Reader.DrawRings | internal/model/geocoords.go:107-121 | Adds the rings read, empty ones left out. |
| WkbReader.Reader.DrawParts | internal/model/geocoords.go:122-150 | Adds what every member draws, in order. |
| WkbReader.Reader.DrawPart | internal/model/geocoords.go:122-150 | Adds what one member draws. |
| WkbReader.Reader.ReadPosition | internal/model/geocoords.go:152-173 | The first number read is x and the second y; the rest are read past, to where the text reader stops. |
| WkbReader.Reader.ReadPositionRun | internal/model/geocoords.go:175-190 | Reads the run the text reader reads, each position cut to two numbers. |
| WkbReader.Reader.ReadPlaces | internal/model/geocoords.go:175-190 | Reads a run's positions in order. |
| Vault.Connections.LockVault | internal/app/vaultlock.go:42-74 | A first lock stopped at any step leaves a disk from which the passphrase reads every listed secret with its old value; a completed lock or change of passphrase does too. No passphrase, a closed lock or no salt writes nothing. |
| Vault.Connections.RemoveVaultLock | internal/app/vaultlock.go:76-104 | Stopped at any step, the passphrase still reads every listed secret as it was, if none looks sealed; a wrong passphrase or a portable vault writes nothing. |
| Vault.Connections.PutLock | internal/app/vaultlock.go:58-74 | The setting is written first and then the secrets under it, every disk on the way readable with the passphrase on a first lock. |
| Vault.Connections.TakeLock | internal/app/vaultlock.go:92-104 | The secrets are written in the open first and the setting taken last, every disk on the way readable. |
| Vault.Connections.HeldSecrets | internal/app/vaultlock.go:106-129 | Collects every listed secret the vault answers for; fails exactly when it refuses one that may exist: locked, or not read by this key. |
| Vault.Connections.Rewrite | internal/app/vaultlock.go:131-142 | Each disk on the way holds some of what is held rewritten and nothing else changed; with no failure, all of it. |
| Vault.Connections.RewriteOne | internal/app/vaultlock.go:131-142 | One more secret rewritten, the run still of that form. |
| Vault.LockingReads | internal/app/vaultlock.go:42-47 | Stopped anywhere in a first lock, an entry reads as it was exactly when the session did not override it with another value, or it has not been rewritten yet. |
| Vault.UnlockingReads | internal/app/vaultlock.go:76-79 | While the setting stands, an entry reads as it was exactly when it has not been rewritten or its text does not look sealed. |
| Vault.UnlockedReads | internal/app/vaultlock.go:76-79 | With the setting gone, a secret reads as it was exactly when its text does not look sealed. |
| Vault.ChangingReads | internal/app/vaultlock.go:42-47 | During a change of passphrase a secret reads as it was exactly when its entry is no longer sealed under the old key. |
| Vault.ChangeStopped | internal/app/vaultlock.go:42-74 | A change stopped after the setting and before the secret leaves it unreadable by every passphrase, whatever the passphrases and 16-byte salts, exactly unless both new ones happen to be the old: why only a complete change is safe. |
| Vault.LockingKeeps | internal/app/vaultlock.go:42-74 | Any part-written disk of a first lock keeps every listed secret. |
| Vault.LockingRun | internal/app/vaultlock.go:42-74 | So does every disk of a whole run. |
| Vault.UnlockingKeeps | internal/app/vaultlock.go:76-104 | Any disk of a removal keeps every listed secret that does not look sealed. |
| Vault.UnlockingRun | internal/app/vaultlock.go:76-104 | So does every disk of a whole run. |
| Vault.ChangedRun | internal/app/vaultlock.go:42-74 | A completed change keeps every secret under the new passphrase. |
| Vault.GrewAfter | internal/app/vaultlock.go:60-74 | A setting saved and then a run of writes under it is one run. |
| Vault.PartMore | internal/app/vaultlock.go:131-142 | One more secret rewritten leaves a disk still part-written, with one less to go. |
| Vault.Machine.Put | internal/app/vault.go:106-120 | A write takes the disk to the one with that entry, or fails and leaves it, and every disk is remembered. |
| Vault.Machine.SaveSetting | internal/app/vaultlock.go:144-153 | A save takes the disk to the one with that setting, or fails and leaves it. |
| Vault.Lock.Unlock | internal/app/lock.go:97-111 | The right passphrase sets the key; a wrong one changes nothing about the lock. |
| Vault.Lock.Close | internal/app/lock.go:113-119 | The key is forgotten. |
| Vault.Vault.HandsOver | internal/app/vault.go:79-102 | A secret is handed over exactly when it was typed in for the session or, kept and not locked, its entry is in the open, or sealed under the lock's key. |
| Vault.Vault.LockedSaysSo | internal/app/vault.go:93-98 | A locked vault answers that it is locked of every name not typed in, whatever its disk holds, an entry never yet sealed too. |
| Vault.Vault.ReadsItsDisk | internal/app/vault.go:79-102 | Opened with a passphrase, a vault in step with its disk answers every name as that disk reads with that passphrase. |
| Vault.Start | cmd/ikigai/main.go:139-143 | A program started over a locked disk hands over nothing, and over one with no lock, or a lock of no salt, just what is in the open. |
| Vault.StartAndRead | internal/app/vaultlock.go:35-36 | Started, opened with a passphrase and asked: the answer is what the run theorems call reading that disk with that passphrase. |
| Vault.Connections.UnlockVault | internal/app/vaultlock.go:35-36 | Succeeds exactly with the right passphrase or with no lock; the vault then answers as its disk reads with it, and after a wrong one as before. |
| Vault.Connections.CloseVault | internal/app/vaultlock.go:38-40 | Shut again, it hands over only what was typed in. |
| Vault.Lock.Seal | internal/app/lock.go:153-174 | Seals under the key, refuses while locked, and leaves text alone when there is no lock. |
| Vault.Vault.Set | internal/app/vault.go:104-120 | In the keychain, exactly that entry is written, in sealed form when there is a key; out of it, only the session changes. |
| Diff.Match | internal/diff/match.go:13-45 | One node for every name in either list but those left out, in the order of names: same or changed as compared, added or removed where one side lacks it. |
| Diff.IndexList | internal/diff/match.go:80-90 | Keyed by name, a repeated name keeping the first. |
| Diff.SortNames | internal/diff/match.go:37-44 | Each name once, in order. |
| Diff.SortedIs | internal/diff/match.go:37-44 | The order is strictly increasing. |
| Diff.AttrFieldList | internal/diff/match.go:146-160 | The attributes that differ, by name in order. |
| DiffFields.ColumnSame | internal/diff/diff.go:189-205 | Two columns compare the same exactly when they agree in native type, nullability, position, default (having one, and its text), identity and auto-increment and, as the options go, in generated text, comment and attributes. |
| DiffFields.ColumnSays | internal/diff/diff.go:189-212 | What differs is told under its name, first as it was and then as it is wanted. |
| DiffFields.PrimaryKeySame | internal/diff/diff.go:214-220 | Primary keys: their columns, spelled in a row. |
| DiffFields.UniqueSame | internal/diff/diff.go:222-226 | Unique constraints: likewise. |
| DiffFields.CheckSame | internal/diff/diff.go:228-232 | Checks: their expressions. |
| DiffFields.ForeignKeySame | internal/diff/diff.go:234-251 | Foreign keys: their columns, what they refer to, and what is done on delete and on update. |
| DiffFields.ReferenceApart | internal/diff/diff.go:245-251 | Of names without dots and brackets, references agree exactly when schema, table and columns do. |
| DiffFields.IndexSame | internal/diff/diff.go:253-281 | Indexes: their columns, uniqueness, method, predicate, included columns and attributes. |
| DiffFields.IndexColumnApart | internal/diff/diff.go:268-281 | Columns of an index are spelled alike exactly when they run the same way and are of one expression or, without any, one name. |
| DiffFields.TriggerSame | internal/diff/diff.go:359-369 | Triggers: timing, events, whether for each row, condition and definition. |
| DiffFields.TableDetailSame | internal/diff/diff.go:163-179 | A table's own details: comment and attributes. |
| DiffFields.ViewDetailSame | internal/diff/diff.go:283-309 | A view's: whether materialized, definition and comment. |
| DiffFields.RoutineSame | internal/diff/diff.go:318-335 | Routines: kind, language, what they return, definition and comment. |
| DiffFields.OverloadsApart | internal/diff/diff.go:152-161 | Routines of one name are matched exactly when their parameters have the same modes and types in turn, where none of these holds a comma: overloads are not. |
| DiffFields.SequenceSame | internal/diff/diff.go:337-357 | Sequences: type, start, increment, both bounds, and whether they cycle. |
| DiffFields.UserTypeSame | internal/diff/diff.go:371-393 | User types: category, values, fields and base type. |
| DiffFields.SchemaDetailSame | internal/diff/diff.go:136-153 | A schema's own details: owner, comment and attributes. |
| DiffFields.AttrsSame | internal/diff/options.go:126-148 | No attribute differs exactly when those not left out agree, one that is missing being one of no text. |
| DiffFields.SpelledApart | internal/diff/match.go:164-164 | Names, none empty or with a comma, are spelled alike in a row exactly when they are the same ones in the same order. |
| DiffFields.KeysClash | internal/diff/match.go:164-164 | With a comma they need not be: a key of the columns x and y compares the same as one of the single column "x, y". |
| DiffSame.GroupSame | internal/diff/match.go:23-66 | Two lists compare the same exactly when, of every name not left out, both have one or neither, and the two agree. |
| DiffSame.OneSided | internal/diff/match.go:23-52 | What only the wanted side has is to be added, and what only the other has to be removed. |
| DiffSame.ColumnComes | internal/diff/diff.go:163-179 | So for a table's columns. |
| DiffSame.ViewSame | internal/diff/diff.go:283-309 | Two views compare the same exactly when their details, columns and indexes agree. |
| DiffSame.SchemaSame | internal/diff/diff.go:136-153 | Two schemas, exactly when their details and everything of each kind agree. |
| DiffSame.DatabaseSame | internal/diff/diff.go:91-118 | Two databases, exactly when their character set, collation and comment agree, as the options go, and every schema not left out. |
| DiffLaws.ComparedAlike | internal/diff/diff.go:91-118 | Two databases compare to the same tree in whatever order either lists its distinctly named objects, and whatever their row estimates. |
| DiffLaws.TableNodesAlike | internal/diff/diff.go:163-179 | A table's comparison does not see row estimates. |
| DiffLaws.ViewNodesAlike | internal/diff/diff.go:283-309 | A view's comparison does not see the order of its distinctly named parts. |
| DiffLaws.SchemaNodesAlike | internal/diff/diff.go:136-151 | A schema's comparison does not see the order of its objects. |
| DiffLaws.IndexedShuffled | internal/diff/match.go:80-90 | The same distinctly named things in another order are indexed alike. |
| DiffLaws.MatchedAlike | internal/diff/match.go:13-45 | Lists alike name by name match alike. |
| DiffLaws.MatchedSelf | internal/diff/match.go:13-45 | A list matched with itself is the same throughout if each thing is. |
| DiffLaws.TableSelf | internal/diff/diff.go:163-179 | Every node of a table's comparison with itself says same. |
| DiffLaws.SchemaSelf | internal/diff/diff.go:136-151 | So is a schema. |
| DiffLaws.DatabaseSelf | internal/diff/diff.go:91-118 | So is a database. |
| Sync.TableConverges | internal/app/syncrender.go:94-126 | Taking every part that differs leaves a table whose columns, keys, constraints, indexes and triggers all agree with the wanted ones, field by field; it is the same as the wanted one exactly when comment and attributes agreed. |
| Sync.TableSame | internal/diff/diff.go:163-179 | Two tables compare the same exactly when their comments, their attributes and all their parts agree, field by field. |
| Sync.PartsSame | internal/diff/diff.go:163-179 | No part differs exactly when they all agree. |
| Sync.TableCloses | internal/app/syncrender.go:94-126 | Taking some parts closes exactly those and leaves every other node as it was; all of a primary key closes with any of it. |
| Sync.TableAnyOrder | internal/app/syncrender.go:94-126 | The order parts are taken in does not show in the comparison. |
| Sync.ApplyChosen | internal/app/syncrender.go:94-126 | The loop makes of the table what taking each part in turn makes of it. |
| Sync.AppliedFolds | internal/app/syncrender.go:94-126 | Taking parts one after another takes each list's parts on their own. |
| Sync.FoldTakes | internal/app/syncrender.go:128-145 | After all parts, each chosen name is as wanted, every other as it was, and names stay distinct. |
| Sync.TakeOneCloses | internal/app/syncrender.go:128-145 | Taking one name makes the list say of it what is wanted exactly when it is wanted at all or stood there no more than once. |
| Sync.TakeOneLeaves | internal/app/syncrender.go:128-145 | And never changes what it says of another name. |
| Sync.TakeOneApart | internal/app/syncrender.go:128-145 | Distinct names stay distinct. |
| Sync.MatchedHas | internal/diff/match.go:13-45 | A node is among those compared exactly when it is what the comparison says of some name. |
| Sync.GroupCloses | internal/app/syncrender.go:94-126 | One list: chosen nodes are the same afterwards, the others unchanged, and none new. |
| Place.ObjectReads | internal/app/sync.go:155-173 | An object's id reads back as that object exactly when no name in it has a slash. |
| Place.PartReads | internal/app/sync.go:155-173 | The id of something inside an object, whatever its own name holds, reads back as inside that object exactly when no name on the way to the object has a slash. |
| Place.IdsApart | internal/diff/diff.go:395-403 | With no slash in any name, two ids are the same exactly when their kinds and names are, all the way down. |
| Place.KindsApart | internal/diff/diff.go:395-403 | No two kinds are written alike. |
| Place.JoinSplit | internal/app/sync.go:161-173 | The steps of an id, joined again, are the id. |
| Schemafile.WriteRead | internal/schemafile/schemafile.go:84-92 | Every model Write accepts, read back, compares the same with the original at every node, either way round, exactly when in each schema compared the first listed of the routines that print alike with their parameters says the same as the one whose file sorts first. |
| Schemafile.ReadAlike | internal/schemafile/schemafile.go:84-92 | Where routines print apart the model read back is alike in all that comparison looks at. |
| Schemafile.SchemaCompares | internal/schemafile/schemafile.go:353-377 | The same of one schema: nothing but routines that print alike can tell it from what comes back. |
| Schemafile.ApartMeet | internal/schemafile/schemafile.go:227-258 | Routines that print apart always meet that condition. |
| Schemafile.RoutinesClash | internal/schemafile/schemafile.go:227-258 | It can fail: "f" of an "a(b" and "f(a" of a "b" print alike, are written to files of their own, and come back the other way round. |
| Schemafile.WrittenReads | internal/schemafile/schemafile.go:329-351 | What Read asks of a tree, Write has put there: it does read back. |
| Schemafile.Write | internal/schemafile/schemafile.go:84-148 | Succeeds exactly when no two objects share a file whatever the case and no schema's directory stands in the way of the database's own file; then the whole tree is there. |
| Schemafile.WriteSchema | internal/schemafile/schemafile.go:205-258 | A schema's directory holds its own file and one file for each of its objects. |
| Schemafile.WriteList | internal/schemafile/schemafile.go:227-258 | A directory of one kind holds each thing under its file name. |
| Schemafile.Read | internal/schemafile/schemafile.go:323-351 | Succeeds exactly on a tree of this format whose listed schemas are all there. |
| Schemafile.ReadSchema | internal/schemafile/schemafile.go:353-377 | Everything of every kind comes back, row estimates unknown. |
| Schemafile.ReadInto | internal/schemafile/schemafile.go:379-408 | Every JSON file of a directory, in the order the files sort. |
| Schemafile.FileNameOf | internal/schemafile/name.go:22-57 | The loop gives the cleaned, trimmed, and if need be prefixed, name. |
| Schemafile.DashesStand | internal/schemafile/name.go:37-57 | "a- b" becomes "a--b": a dash of the name's own stands beside the one written for what follows it. |
| Schemafile.FileNameSafe | internal/schemafile/name.go:22-57 | A file name is never empty, holds only what is safe, has no dot at either end and is no device's name. |
| Schemafile.RunDashed | internal/schemafile/name.go:37-52 | What is kept of a name stays as it is, and each run of what is not becomes one dash. |
| Schemafile.PlainFile | internal/schemafile/name.go:22-57 | A name of what is kept, with no dash, dot or space at an end, is its own file's, with an underscore before a device's. |
| Schemafile.NothingKept | internal/schemafile/name.go:22-57 | A name of nothing that is kept is an underscore. |
| Schemafile.CheckNames | internal/schemafile/name.go:59-77 | Accepts exactly the names whose files differ whatever the case. |
| Schemafile.CheckSchema | internal/schemafile/schemafile.go:125-148 | Accepts exactly a schema each of whose lists has files of its own. |
| Schemafile.CheckModel | internal/schemafile/schemafile.go:125-148 | Accepts exactly a model whose schemas, and the objects of each, have files of their own. |
| Schemafile.ListBack | internal/schemafile/schemafile.go:379-408 | A list written and read is the same things in some order, and indexed alike. |
| Schemafile.TablesBack | internal/schemafile/schemafile.go:227-258 | Tables come back the same but for their row estimates. |
| Schemafile.SchemaBack | internal/schemafile/schemafile.go:353-377 | A schema whose routines print apart comes back alike. |
| Schemafile.DirsHold | internal/schemafile/schemafile.go:205-225 | Each schema's directory holds that schema and no other's. |
| Query.Unreached | internal/query/design.go:390-420 | The tables listed, in order, are exactly those no path of joins connects to the first; the fixpoint ends. |
| Query.Sweep | internal/query/design.go:399-413 | A sweep marks only connected tables and says again exactly when it marked one; otherwise nothing leads out of what is marked. |
| Query.PathStays | internal/query/design.go:390-420 | No path leads out of a set no join leaves. |
| Query.ClosedIsConnected | internal/query/design.go:390-420 | Marked soundly and closed under joins is exactly connected. |
| Query.CheckJoins | internal/query/design.go:355-388 | Finds nothing wrong exactly when every join is sensible and every table is connected. Otherwise it names what is wrong with the first join that is not sensible, the first such thing in order, or else the first table that is not connected. |
| Query.Joins | internal/query/render.go:150-194 | Each join is written once; the walked lines each bring in an unnamed table against a named one and name exactly the connected tables; the rest join tables both named or neither, in their order. |
| Query.WalkOnce | internal/query/render.go:164-184 | A pass keeps the walk one, and says again exactly when it lengthened it; otherwise no join leads on. |
| Query.WalkNames | internal/query/render.go:150-155 | A walk names one table a line, and the first. |
| Query.WalkEnds | internal/query/render.go:164-194 | A walk that can go no further has named exactly what is connected, and every join lies wholly inside or outside it. |
| QueryMeaning.TreeMeans | internal/query/render.go:150-213 | When the joins of a valid design form a tree and every one is inner or cross, as is required, the lines keep exactly the rows of the product that meet every join's pairs. |
| QueryMeaning.TreeNamesOnce | internal/query/render.go:150-155 | For a valid design the walk has one line less than there are tables, and no table is named twice exactly when the joins are a tree. |
| QueryMeaning.WalkKeeps | internal/query/render.go:150-213 | By inner and cross joins, joining table after table keeps the rows of the product that every line holds of. |
| QueryMeaning.OuterSwapped | internal/query/render.go:156-213 | For every join and line, whatever the rows so far: the line as written keeps what its join means, for all data, exactly when it is no left or right join or is written from its own left end. |
| QueryMeaning.WalkAsks | internal/query/render.go:150-213 | So for a whole walk: after every line, for all data, what is kept is what the design asks, exactly when each left and right join is walked from its own left end. |
| QueryMeaning.TreeAsks | internal/query/render.go:150-213 | For joins that make a tree it is told by the design alone: the lines keep what it asks, after each of them and for all data, exactly when the left end of each left and right join is connected to the first table without that join. |
| QueryMeaning.TreeFromOwnEnds | internal/query/render.go:150-194 | Every line of a tree is written from its join's own left end, where that matters, exactly when that is so. |
| QueryMeaning.RightWithout | internal/query/render.go:150-194 | What a line brings in is not connected without its join. |
| QueryMeaning.AliasFor | internal/query/design.go:228-245 | The name is not taken: its own, or with the first number from two up that is free. The search ends. |
| QueryMeaning.Design.Aliases | internal/query/design.go:247-254 | The names in use, in order. |
| QueryMeaning.Design.Add | internal/query/design.go:256-263 | The table goes last, under a name no other has. |
| QueryMeaning.Design.Remove | internal/query/design.go:265-303 | The table goes. The joins left are, in order, those that did not reach it, each of the same kind, on the same columns, from the very table it was from to the very table it was to; and so for the table of every output, condition, group and sort, all else of them unchanged. No mention is left of a missing table. |
| QueryMeaning.Leave | internal/query/design.go:276-303 | Keeps what does not refer to the table, moved, in order. |
| QueryMeaning.LeavingAre | internal/query/design.go:276-303 | What is left is exactly what did not refer to it, moved. |
| QueryMeaning.LeavingFrom | internal/query/design.go:276-303 | Each that is left comes from a place of its own, in order, and those are exactly the places of what did not refer to it. |
| SchemaCache.EveryNameFresh | internal/app/schema.go:90-105 | In every interleaving of lookups, answers, failures, landings, changes and Invalidates, each cached name is one the source said, asked about that key, at some time since the latest Invalidate. |
| SchemaCache.NextFresh | internal/app/schema.go:397-429 | Every step keeps that, and keeps it of the answers still on their way. |
| SchemaCache.OldLoadsWriteNothing | internal/app/schema.go:256-429 | A load of an older generation that lands writes nothing; one of the present writes its own key and, for a root of folders alone, the schemas of that one database, every other key staying as it was. |
| SchemaCache.RecordedFresh | internal/app/schema.go:253-395 | A landing of the present generation writes only names its answers said, whatever answers failed. |
| SchemaCache.RecordedKeys | internal/app/schema.go:256-395 | It writes exactly those keys. |
| SchemaCache.GatheredIs | internal/app/schema.go:324-352 | A container's objects are exactly what its four answers name of the right classes, each name once, failed answers passed over. |
| SchemaCache.TakeIs | internal/app/schema.go:328-338 | Taking one answer adds what it names of the class asked for, and nothing named before is added again. |
| SchemaCache.OfSaid | internal/app/schema.go:303-316 | One kind's names are exactly those of the nodes of that kind. |
| SchemaCache.KnownStays | internal/app/schema.go:110-181 | What is known stays known until an Invalidate. |
| SchemaCache.FailureIsEmpty | internal/app/schema.go:256-395 | For every key, a run whose answers all fail leaves it known and empty whatever the source has to say: freshness is of names, not of their absence. |
| SchemaCache.TornList | internal/app/schema.go:324-352 | A run whose list of objects the source never said as a whole: it changed between two of the load's questions. |
| SchemaCache.OneAtATime | internal/app/schema.go:397-429 | From wherever a key's mark is right, at every step of a run it has one load of the present generation on its way when marked and none when not, exactly when no load of an older generation lands on the mark of a newer one. |
| SchemaCache.NextAccurate | internal/app/schema.go:397-429 | One step keeps a right mark right exactly when it is no such landing. |
| SchemaCache.BeginsAccurate | internal/app/schema.go:90-105 | Marks are right at the start and after every Invalidate. |
| SchemaCache.LoadsCounted | internal/app/schema.go:397-429 | And in every run there are no more loads of a key on their way than one, and one for each older load of it that has landed since the latest Invalidate. |
| SchemaCache.EveryNameThere | internal/app/schema.go:253-429 | The converse of freshness: where no question has failed since the latest Invalidate, a name the source would have listed for a key's question at every time since is in the key's cached list. A schema of a database only folders tell of is the exception, and is excluded. |
| SchemaCache.CurrentThere | internal/app/schema.go:253-281 | Where no question has failed since the latest Invalidate, the database the source has marked last as in use at every time since is the cached one, and a source that has told only of folders of one database has that one cached, and in use. |
| SchemaCache.NextTold | internal/app/schema.go:253-429 | Every step keeps that. |
| SchemaCache.RecordedTold | internal/app/schema.go:253-281 | A landing of the databases writes it. |
| SchemaCache.NextWhole | internal/app/schema.go:397-429 | Every step that is no failure keeps that. |
| SchemaCache.RecordedWhole | internal/app/schema.go:253-395 | What a landing writes is whole in that sense. |
| SchemaCache.TwiceAtOnce | internal/app/schema.go:397-429 | A run with two at once: an older load takes the mark of a newer one. |
| SchemaCache.Cache.Lookup | internal/app/schema.go:110-181 | Answers from memory at once, and begins a load where it has no answer and none is on its way. |
| SchemaCache.Cache.Begin | internal/app/schema.go:397-412 | Marks the key and sends one load of this generation, or does nothing if it is marked. |
| SchemaCache.Cache.AnswerLoad | internal/app/schema.go:412-418 | The source answers the load's next question, or fails, off the lock and at whatever time that is. |
| SchemaCache.Cache.Land | internal/app/schema.go:418-429 | A load that has all its answers clears its key's mark, and writes only when nothing was invalidated since it was asked for. |
| SchemaCache.Cache.Invalidate | internal/app/schema.go:90-105 | Forgets everything and begins a new generation. |
| SchemaCache.Cache.Change | internal/app/schema.go:90-105 | The source's objects change under the cache, which does not know. |
| SchemaCache.ReadRoot | internal/app/schema.go:265-281 | The loop finds the databases, the current one and the one of a source without any. |
| SchemaCache.ReadKind | internal/app/schema.go:303-309 | The loop picks out one kind's names in order. |
| SchemaCache.ReadObjects | internal/app/schema.go:324-350 | The loops over the four answers gather each object once, failures passed over. |
| SchemaCache.TakeNodes | internal/app/schema.go:328-338 | The loop over one answer takes what is new and of the class asked for. |
| Plugin.EachIsAConversation | plugin/serve.go:177-308 | In every interleaving of requests, what the plugin says of each is one set of columns, then rows, then exactly one ending, exactly when its source wrote no columns or row after its handler returned; if it did, such a conversation is followed by those. What is on the wire is that less its empty fields. |
| Plugin.ConversationGoesOn | plugin/serve.go:179-308 | One deed, whatever it is: written before the handler returned it carries the conversation on, and after, it overruns it. |
| Plugin.OverrunGoesOn | plugin/serve.go:278-308 | Once overrun, so it stays. |
| Plugin.RowAfterDone | plugin/serve.go:278-308 | And a source that keeps its writer does that: a run with a row on the wire after Done. |
| Plugin.HandedInOrder | internal/plugin/host.go:144-173 | In every interleaving a caller has been handed a beginning of what was said to it, in order. |
| Plugin.CrashNeedsFinishHolding | internal/plugin/host.go:160-200 | The reader is about to hand a line to a closed channel, or already has, exactly when the conversations were ended while it held a line for a caller still waiting; and the program has come down by it exactly when that line was then handed over. |
| Plugin.ReaderCrashes | internal/plugin/host.go:160-200 | And there is such a run. |
| Plugin.ClosedApart | internal/plugin/host.go:189-200 | Nobody waits on a closed channel in any run, and without such a finish none is about to be sent on. |
| Plugin.ReaderFails | internal/plugin/host.go:144-200 | Every step keeps the two conditions told by the run so far. |
| Plugin.Pipe.SayColumnsOf | plugin/serve.go:278-284 | Columns are written unless they have been already; nothing asks whether the handler has returned. |
| Plugin.Pipe.SayRowOf | plugin/serve.go:286-308 | A row is written exactly when columns have been and it is not empty; nothing asks whether the handler has returned. |
| Plugin.Pipe.End | plugin/serve.go:190-264 | However the work goes, one ending is written. |
| Plugin.Pipe.Stream | internal/plugin/host.go:261-294 | A request gets a number of its own and is waited on, unless the conversation is over. |
| Plugin.Pipe.LookUp | internal/plugin/host.go:153-166 | The reader takes the next line and looks up who waits for it. |
| Plugin.Pipe.HandOver | internal/plugin/host.go:166-173 | The line goes to that caller, or nowhere; on a closed channel it is the end of the program. |
| Plugin.Pipe.StopWaiting | internal/plugin/host.go:280-294 | A caller that gives up is looked up no more; a line already held for it is still handed over. |
| Plugin.StoppedGets | internal/plugin/host.go:144-173 | Whatever comes after, it gets nothing but that line. |
| Plugin.Pipe.FinishAll | internal/plugin/host.go:189-200 | Every waiting caller's channel is closed, once. |
| PluginStream.BrowseReads | internal/plugin/source.go:205-283 | End to end: a caller handed part or all of an ended request's lines reads its rows in order and then, for ever, the end of them, their error or that the plugin stopped, unless its columns or error text were empty, and whatever was written to it late; and late lines are there exactly when its source wrote some. |
| PluginStream.AnswerReads | internal/plugin/source.go:205-283 | Whatever beginning of an answer arrives, and of what was written after it, the rows in it are read in order, then always the same ending, and nothing past that. |
| PluginStream.RowsInOrder | internal/plugin/source.go:252-283 | Reads give the rows in order and then what follows them. |
| PluginStream.ForEver | internal/plugin/source.go:252-283 | Once at the end, or failed, always so. |
| PluginStream.UnsaidEnding | plugin/wire.go:50-72 | An error with no text is left out of its line, so the caller is told the plugin stopped instead. |
| PluginStream.UnsaidColumns | plugin/wire.go:50-72 | Columns that are none are left out of their line, so every row is passed over and the browse is empty. |
| PluginStream.Stream.Receive | internal/plugin/source.go:252-270 | Takes exactly the next line, unless cancelled or there are no more. |
| PluginStream.Stream.ReadNext | internal/plugin/source.go:252-283 | The next row, the end or what went wrong; once the last two, always the same. |
| PluginStream.Stream.Close | internal/plugin/source.go:285-292 | The caller stops waiting, the first time only. |
| PluginStream.Rows | internal/plugin/source.go:205-238 | The first line that is columns, the end or an error that says something alone decides, whatever came before: opened with those columns, opened at the end, or failed with exactly that text; with no such line it fails as gone. Or the caller was cancelled. A failure stops waiting exactly once. |
| PluginStream.OpensAt | internal/plugin/source.go:205-238 | So it is of the lines themselves, and what is left to read is what came after that line. |
| PendingReplay.ChangesetShows | internal/app/pending.go:291-315 | Writing the changeset over the rows read makes exactly the rows State, Value and Added show, provided keys hold no separators, every change suits every row (below), and the values of a new row under one stored name agree. |
| PendingReplay.KeyTaken | internal/app/pending.go:92-127 | Through Set and DeleteRow: a row given another's key is lost with it when that one is deleted after, so the second proviso is needed. |
| PendingReplay.SharedName | internal/app/pending.go:92-114 | Through Set: two columns of one stored name, edited apart, are one entry of the changeset, and the row written is not the row shown. |
| PendingReplay.AssignedIs | internal/app/pending.go:308-315 | An update is written as it is shown exactly when, of the row's columns under one stored name, all those shown agree once one of them is edited. |
| PendingReplay.EditsCome | internal/app/pending.go:308-315 | The edits themselves come out as made exactly when no two under one stored name differ. |
| PendingReplay.InsertedRow | internal/app/pending.go:308-315 | A new row is written as it is shown exactly when its values agree so. |
| PendingReplay.EditsShow | internal/app/pending.go:291-305 | The changes alone make of the rows read what is shown of them. |
| PendingReplay.ReplayReads | internal/app/pending.go:291-305 | Change after change, the rows are those shown, as far as the changes go, exactly when every change suits every row: a row's own edits agree under each stored name, and a change to a key the row has been given by then leaves it as it is shown. |
| PendingReplay.PartGoesOn | internal/app/pending.go:291-305 | One change does to a row exactly what is left to do to it, if the row is its own, and otherwise nothing, exactly when it suits that row; it never leaves more of it. |
| PendingReplay.AllGoOn | internal/app/pending.go:291-305 | And to a whole table exactly when it suits every row of it. |
| PendingReplay.ClearShows | internal/app/pending.go:291-315 | In particular the changeset makes what is shown where no edit gives a row the key of a later change and edits agree, which can be seen before there is a changeset. |
| PendingReplay.ReplayInserts | internal/app/pending.go:198-265 | The new rows arrive at the end, in order, columns not given left to their defaults, where the values under each stored name agree. |
| Pending.KeyStringApart | internal/app/pending.go:83-90 | Two keys print alike only when they are the same values, where no type holds the unit separator and no text the record separator. |
| Pending.KeysCollide | internal/app/pending.go:83-90 | Values holding separators can make two keys one. |
| Pending.FindKey | internal/app/pending.go:51-69 | Each of the key's columns is found where it stands last, and refused exactly when one is not shown at all. |
| Pending.ReadAgain | internal/app/pending.go:92-114 | A row read anew after another changed it: an edit can be kept that sets what was read at first. |
| Pending.SetShows | internal/app/pending.go:92-114 | A cell that is set shows what it was set to, or what was read where that is the same; every other cell of every row, and how every other row stands, shows as it did. |
| Pending.ClearedShows | internal/app/pending.go:131-142 | With its last edit undone a row is as it was read. |
| Pending.DropsFirst | internal/app/pending.go:149-161 | A key leaves the order at its one place, and the others keep theirs. |
| Pending.Pending.Set | internal/app/pending.go:92-114 | Overlays the cell, or undoes its edit where the value is what was read; refuses a missing column and a row to be deleted. Kept updates are never empty and keep the row as first read. They go on never setting what was first read exactly when the row passed holds the value already or the row first read does not. |
| Pending.Pending.Put | internal/app/pending.go:92-114 | One row's change is kept, at the end of the order if new. |
| Pending.Pending.DeleteRow | internal/app/pending.go:116-127 | The row is marked gone, its edits with it. |
| Pending.Pending.RevertCell | internal/app/pending.go:129-141 | One cell's edit is undone, and a row left with none is unchanged. |
| Pending.Pending.RevertRow | internal/app/pending.go:143-147 | All that is pending for one row is undone. |
| Pending.Pending.Forget | internal/app/pending.go:149-160 | One key's change goes from the map and the order; the rest keep theirs. |
| Pending.Pending.Remove | internal/app/pending.go:149-160 | The key leaves the order, the rest staying in turn. |
| Pending.Pending.RevertAll | internal/app/pending.go:162-165 | Nothing is pending. |
| Pending.Pending.State | internal/app/pending.go:167-181 | Deleted, changed or unchanged, as the overlay has it. |
| Pending.Pending.CellValue | internal/app/pending.go:183-195 | The overlay's value for the cell, if it has one. |
| Pending.Pending.Add | internal/app/pending.go:197-201 | A new empty row, last. |
| Pending.Pending.SetAdded | internal/app/pending.go:203-213 | A new row's cell is set; a missing row or column is refused. |
| Pending.Pending.UnsetAdded | internal/app/pending.go:215-221 | A new row's cell goes back to its default. |
| Pending.Pending.RemoveAdded | internal/app/pending.go:223-228 | One new row goes, the others staying in order. |
| Pending.Pending.Duplicate | internal/app/pending.go:230-249 | A new row with the row's values as they stand, but for its key. |
| Pending.Pending.Added | internal/app/pending.go:251-265 | The new rows, columns not given left to their defaults. |
| Pending.Pending.Name | internal/app/pending.go:308-315 | Every value is under its column's stored name, one of them where several share it, and no other name is there. |
| Pending.Pending.Changeset | internal/app/pending.go:291-315 | One change for each row touched, first touched first, told by its original key, its values by stored name; then one for each new row. |
| TableDesign.ChangesRedo | internal/app/design.go:222-246 | Made over again on the columns as read, the changes give the columns as they stand, in order and equal in every field but place and attributes. |
| TableDesign.AlteredIff | internal/app/design.go:222-271 | A column that was read and is kept is among what changed exactly when it differs in a field other than its place and attributes. |
| TableDesign.RedoneKept | internal/app/design.go:222-246 | The original columns left, in order, are those kept. |
| TableDesign.WithoutOrdered | internal/app/design.go:136-140 | Dropping any column leaves the origins increasing, new columns last. |
| TableDesign.RevertClashes | internal/app/design.go:142-167 | A run that leaves two columns of one name: a column renamed, another added under its old name, the first put back. |
| TableDesign.PutApart | internal/app/design.go:142-167 | A column put in another's place keeps names apart exactly when no other column has its name. |
| TableDesign.Design.AddColumn | internal/app/design.go:66-93 | Added last, trimmed, exactly when it has a name, one no other column goes by, a type, and a value for rows there already or no need of one; refused otherwise, for the first of these. |
| TableDesign.Design.ChangeColumn | internal/app/design.go:95-118 | Replaced where it stands; accepted exactly when it is there, has a name no other has, and has a type. |
| TableDesign.Design.DropColumn | internal/app/design.go:120-140 | Goes, the rest told where they now stand; refused where missing or part of a key. |
| TableDesign.Design.Revert | internal/app/design.go:142-167 | A column that was read has again what it was read with, a new one goes, and it says whether anything changed. Names apart stay apart exactly when, of a column read under another name, nobody else has that name now. |
| TableDesign.Design.RevertAll | internal/app/design.go:169-176 | As it was read. |
| TableDesign.Design.Changes | internal/app/design.go:222-246 | What went, then what changed or arrived, in order. Origins stay increasing over kept columns with new ones last, after every operation. |
| PlanDdl.RenamesPair | internal/app/ddl.go:31-64 | After the renames, matching by name pairs every column that stays with its own origin and no other exactly when no rename is of case alone and whoever takes a name another column was read under takes it from one that is renamed away, and renamed earlier where the taker is renamed too: swaps and backward chains fail. |
| PlanDdl.ClearPairs | internal/app/ddl.go:41-57 | The condition is enough. |
| PlanDdl.PairsMake | internal/app/ddl.go:41-57 | And needed. |
| PlanDdl.ClearAfter | internal/app/ddl.go:41-57 | Under it each rename is of its own column alone. |
| PlanDdl.RenamesAre | internal/app/ddl.go:41-57 | The renames made are the kept columns' own, in their order. |
| PlanDdl.PlanRenames | internal/app/ddl.go:41-57 | Renames are made in turn on a working copy, each to whatever then goes by the name; nothing else of a column changes. |
| PlanDdl.RenameAll | internal/app/ddl.go:48-56 | Every column of the old name gets the new one. |
| Paging.FilteredRows.Fetch | internal/app/filtered.go:69-85 | The requested slice of the fully filtered source unless the scan bound stopped it first; a short page only once reading ended. |
| Paging.FilteredRows.Fill | internal/app/filtered.go:87-112 | Reads until it holds enough, the source ended or the bound was reached; what it keeps is always what matches of what it has read. |
| Paging.FilteredRows.Keep | internal/app/filtered.go:96-104 | Adds what matches, in order. |
| Paging.FilteredRows.Count | internal/app/filtered.go:114-124 | Unknown exactly when reading has not ended or was stopped; otherwise the number of all rows that match. |
| Paging.FilteredRows.Read | internal/app/filtered.go:126-134 | How far it looked, and whether to the end or to the bound. |
| Paging.KeptBegins | internal/app/filtered.go:87-112 | What has been kept so far begins all there is to keep. |
| Paging.KeptIs | internal/app/filtered.go:96-104 | What is kept is every row that matches, each once and in order, and nothing else. |
| Paging.AnswerStays | internal/app/query.go:448-473 | However a fetch and the reader interleave, an answer given stays the answer. |
| Paging.ShortMeansEnd | internal/app/query.go:448-473 | A page answered, of a stream read from the start, is that window on the stream's rows as far as the cap, and short only where the stream came to its end without error or at the cap. |
| Paging.ReadsStream | internal/app/query.go:399-432 | Whatever arrives, the rows kept are the stream's own as far as the cap, and the ending is the stream's unless the cap came first. |
| Paging.PagesOfResult | internal/app/rows.go:45-62 | A whole run of pages of a result still being read, each asked for where the ones before it left off: however fetches and arrivals interleave they begin its rows as far as the cap, and with a short one are all of them. |
| Paging.PagesJoin | internal/app/rows.go:45-62 | Windows on any rows, one after another, begin the rows, and up to a short one are all of them. |
| Paging.AnswerLater | internal/app/query.go:448-473 | An answer given after some arrivals is the one any later arrivals would give. |
| Paging.EndWakes | internal/app/query.go:399-432 | Whoever waits when reading ends has been woken and will be answered. |
| Paging.OnlyMore | internal/app/query.go:399-432 | Rows only arrive, and nothing changes after the end. |
| Paging.ResultSet.ReadOne | internal/app/query.go:399-432 | One turn of the reader: a row kept and waiters woken now and then, or the end, the error or the cap recorded and all woken. |
| Paging.ResultSet.Fail | internal/app/query.go:511-523 | The first ending stands. |
| Paging.ResultSet.Look | internal/app/query.go:448-473 | A page, the error, or what to wait on. |
| Paging.ResultSet.Fetch | internal/app/query.go:448-473 | The whole waiting fetch, against any arrivals: it looks, waits, is woken and looks again; answered once reading ends, and with what it would be answered whatever arrives later. |
| Paging.ResultSet.Wait | internal/app/query.go:462-472 | Waits exactly until the channel it saw is closed, or for ever if nothing more arrives. |
| Paging.ResultSet.Count | internal/app/query.go:475-484 | Known once reading ended without error. |
| Paging.PagedRows.Next | internal/app/rows.go:34-62 | Each row exactly once, in order, then the end for ever; an error loses no row, and the rows the source keeps are never disturbed. |
| Paging.PagedRows.Turn | internal/app/rows.go:45-58 | The next page takes the place of one used up, at the same place in the rows. |
| Paging.Fetcher.Fetch | internal/app/rows.go:11-27 | A page is a copy of the slice kept. |
| Xlsx.TextReads | internal/export/xlsx.go:216-249 | Undoing XML's entities and then the _xHHHH_ escapes of ECMA-376 Part 1 section 22.9.2.19 recovers the text exactly when nowhere in it does a raw _xHHHH stand directly before a character that is itself escaped. |
| Xlsx.XmlHolds | internal/export/xlsx.go:216-240 | Whatever the text, XML 1.0 (sections 2.2 and 2.11) holds and keeps every character written of it, and none of them opens a tag. |
| Xlsx.OneWritten | internal/export/xlsx.go:216-240 | What a text of one character is written as: an entity, an escape such as _x000D_, or itself. |
| Xlsx.EscapeWritten | internal/export/xlsx.go:229-249 | What would read as an escape has its underscore written _x005F_ and the rest as it stands. |
| Xlsx.PlainStays | internal/export/xlsx.go:216-240 | Where no character needs anything and no escape begins, the text is written as it is. |
| Xlsx.NoEscapes | internal/export/xlsx.go:242-249 | Too few digits, none, or no underscore after them make no escape. |
| Xlsx.CleanReads | internal/export/xlsx.go:216-249 | Enough. |
| Xlsx.BrokenReads | internal/export/xlsx.go:216-249 | And needed, however long the text. |
| Xlsx.LeftUnderscore | internal/export/xlsx.go:216-249 | An underscore left alone reads as an escape exactly there. |
| Xlsx.EntitiesParse | internal/export/xlsx.go:220-240 | XML's escapes undone give what was escaped. |
| Xlsx.AppendXString | internal/export/xlsx.go:216-240 | Appends the text with escapes and then entities, piece by piece. |
| Xlsx.LettersRead | internal/export/xlsx.go:296-303 | A column's letters, read in base 26 without a zero, are its number. |
| Xlsx.LettersOf | internal/export/xlsx.go:296-303 | And every run of capital letters is the letters of the number it reads as. |
| Xlsx.SomeColumns | internal/export/xlsx.go:296-303 | The columns Excel calls A, Z, AA, ZZ, AAA and XFD, and the cells A1 and AB10. |
| Xlsx.ColumnName | internal/export/xlsx.go:296-303 | The loop writes those letters. |
| Xlsx.CellsApart | internal/export/xlsx.go:296-303 | No two cells share a reference. |
| Numerals.DigitsRead | internal/query/design.go:232-245 | A number written in decimal reads back: what makes numbered names differ. |
| Numerals.DigitsApart | internal/query/design.go:232-245 | No two numbers are written alike. |
| Numerals.SomeDigits | internal/query/design.go:232-245 | Some numbers as they are written. |
| Strings.TrimmedIs | internal/app/design.go:66-93 | Trimming takes spaces off either end and nothing else. |

## Left out

- Fuzzy.Match: past 2^30 + 12 letters, which targets in particular are still answered well; what is found is proved a placement of its score at any length.
- SqlText.SameKinds: asks that no comment's depth be lost in its byte and that no line inside a string begin with its quote; each is proved to be exactly when that region is read alike (`SqlText.CommentAgrees`, `SqlText.ResumeAgrees`), not the two together over a whole text, since two misreadings can cancel out.
- SqlFormat.FormatSays: one direction; a script cut at a semicolon within a string or comment may still come out saying the same, depending on what the layout makes of the halves. The failing scripts are in the dialects where comments nest (PostgreSQL) or double quotes make strings (the document and key-value ones); in the others no script is known to need the proviso, and none is proved not to.
- SqlFormat.Format: says nothing of formatting twice; how the layout looks is `SqlShape`, where a line that holds no whole clause may pass the width.
- WkbReader.Reader.ReadPositions: the error's class and the offset agree with the text reader's; messages are not modelled.
- Vault.Connections.RemoveVaultLock: the running session's lock stays off after a failed removal; only what the disk holds is followed.
- Sync.TableCloses: a table's own comment and attributes are not parts, so taking parts never closes them.
- QueryMeaning.TreeMeans: inner and cross joins, for which alone the order of lines does not matter; with outer ones each line is followed in turn (`QueryMeaning.WalkAsks`), and joins past a tree, which name tables again, have no meaning here.
- QueryMeaning.WalkAsks: after every line of the walk, not the last alone, since a later line may drop the rows an earlier one got wrong; so for a tree in `QueryMeaning.TreeAsks`.
- QueryMeaning.Design.Remove: that each mention keeps its table asks that every mention was of a table there was (`InPlace`); the lists are told without that.
- SchemaCache.OneAtATime: counts loads, not how long they take.
- SchemaCache.EveryNameThere: of names the source would have listed all along, none having failed; one that came or went meanwhile may be there or not (`SchemaCache.TornList`), and after a failure none need be (`SchemaCache.FailureIsEmpty`).
- PluginStream.BrowseReads: asks for columns and an error text that are not empty; what happens otherwise is `PluginStream.UnsaidColumns` and `PluginStream.UnsaidEnding`.
- PendingReplay.ChangesetShows: the condition is exact for the rows after each change (`PendingReplay.ReplayReads`); after all of them they may be right again when one change undoes the harm of another.
- Plugin.EachIsAConversation: each of a plugin's deeds is one step, so two goroutines that write one request's columns at the same moment are not followed.
- Paging.ResultSet.Fetch: the fetch is not cancelled while it waits.
- TableDesign.ChangesRedo: asks that the columns read have distinct names; positions are stated by each operation and are not part of what is compared.
- Paging.ResultSet.ReadOne: one turn of the loop; the turns in a row are a list of arrivals (`Paging.ReadsStream`).
- Scripts of whole schemas: the order of tables, keys and other kinds around the sort of views (internal/app/script.go:76-158).
- The lexer's byte tables, keyword lists and the aliasing of its token buffer between lines; the line and spacing counts of tokens, which the layout does not read.
- Floating point: a number is its eight bytes, and how one is printed is a parameter.
- Real cryptography, the randomness of salts beyond its failing, and nil settings, which are read before anything is written.
- Deleting secrets and setting several with undo (internal/app/vault.go:123-160).
- Sync of routines and user types, the order of the statements sync renders, and gathering what was chosen from a tree (internal/app/sync.go:47-126, internal/app/syncrender.go:21-92).
- The staging directory and its renames, the ignore file, refusing directories that are not ours, and JSON (internal/schemafile/schemafile.go:160-203, 275-321).
- The query's other checks and the text of its conditions, groups, orders and limits (internal/query/design.go:423-520, internal/query/render.go:216-331).
- The cache's subscribers, timeouts and closing, and how a name is resolved to a container (internal/app/schema.go:64-108, 187-252).
- The plugin's other operations beyond how they end, broken pipes, and whether a full channel blocks the reader.
- What makes two cell values the same, which is a parameter, and the counting and addressing of changes (internal/app/pending.go:266-289, 319-329).
- The designer of constraints and indexes, and the statements each driver writes for a change.
- Sheet names, dates, numbers and styles of a worksheet.
- Drivers, tunnels, the assistant, stores and the interface.
