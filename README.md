# Contract generator core, modelled in Dafny

This project models the core logic of the contract generator. The generator turns twelve
Markdown contract sections into one Word document. Its small backend stores reusable contract
clauses ("clausules"). The project models four parts:

- **Markdown to document conversion** (`docx-generator/main.ts`).
  - Inline tokens of a paragraph become text runs (`handleParagraphChildren`).
  - Block tokens become paragraphs (`handleToken`). Ordered lists are registered in the
    module-wide `lists` registry, whose instance numbers count 1, 2, 3, ...
  - A section's token list becomes its children (`buildDocx`).
  - The twelve sections are assembled behind a table of contents and a page break, with a page
    break between neighbouring sections and none after the last (`generateDocx`). The two
    numbering definitions the document declares are kept as data.
- **Clausule query building** (`backend/models/Clausule.js`).
  - The filtered `SELECT` and its parameter list in `getAll`.
  - The parameter lists of `create` and `update`, with JavaScript's `||` defaults.
- **Input sanitization** (`utils/sanitize.js`). `sanitizeObject` walks an object, purifies
  strings and string items of arrays, recurses into nested objects and leaves excluded keys
  alone. The HTML purifier itself is a parameter.
- **CORS** (`backend/config/cors.js`). The allow-list comes from `ALLOWED_ORIGINS` or two local
  defaults. An origin is accepted when it is absent or listed exactly.

Module layout:

| module | file |
|---|---|
| `Common` | `common.dfy`: Option, join, occurrence count |
| `JsValues` | `js_values.dfy`: JavaScript values and truthiness |
| `Markup` | `markup.dfy`: lexer tokens |
| `Docx` | `docx.dfy`: runs, paragraphs, numbering configuration |
| `ParagraphRuns` | `paragraph_runs.dfy` |
| `ListRegistry` | `list_registry.dfy`: the `lists` registry class |
| `TokenConverter` | `token_converter.dfy` |
| `ContractAssembly` | `contract_assembly.dfy` |
| `ClausuleModel` | `clausule_model.dfy` |
| `Sanitize` | `sanitize.dfy` |
| `Cors` | `cors.dfy` |

In these places the model follows the code, which a reader might not expect:

- A `strong` token that is a direct child of a paragraph becomes a plain run, because it falls
  into the "has a `text` field" branch (`main.ts:64-65`). Only a `strong` nested inside a `text`
  child is bold. `ParagraphRuns.DirectStrongIsPlain` shows it: a paragraph whose direct children are the text
  "Hello", a line break and a `strong` "World" gives a plain "World".
- A list nested inside a list item is never converted. `handleParagraphChildren` produces no run
  for a `list` token, so no paragraph ever gets numbering level 1 or deeper.
  `TokenConverter.TopLevelNumberingIsLevelZero` states this.
- The `lists` registry is module-global and never reset. Instance numbers therefore keep
  growing from one generated document to the next. The model passes one `Registry` object that
  lives across calls. The document's content does not depend on the registry's state, because
  no paragraph carries the instance number.
- An `ALLOWED_ORIGINS` value that is set but empty is falsy, so the defaults apply. An empty
  origin string is falsy too, so it is accepted like a missing origin.
- `sanitizeObject` on a top-level array returns a plain object keyed "0", "1", ...
- `sanitizeObject` assigns each key into a fresh `{}`. Assigning the key `__proto__` there calls
  the inherited `__proto__` setter instead of creating a property. An object or null value becomes
  the new object's prototype; any other value is ignored. Either way the key never appears among
  the result's own properties. `Sanitize.ProtoPropertyDropped` shows it.

## Model

| member | source | states |
|---|---|---|
| Markup.TextField | docx-generator/main.ts:64-65 | A token has a `text` field exactly unless it is space, list, br, or an unknown kind without text |
| ParagraphRuns.HandleParagraphChildren | docx-generator/main.ts:45-70 | The nested loops push exactly the runs of the specification function `FlattenRuns`, in token order. A missing token list gives no runs |
| ParagraphRuns.AppendNestedRuns | docx-generator/main.ts:50-58 | The inner loop appends exactly the runs of the nested tokens, in order, after the runs already pushed |
| ParagraphRuns.FlattenRunsAppend | docx-generator/main.ts:47-67 | The runs of a concatenation are the runs of each part, in order: every child contributes independently and order is kept |
| ParagraphRuns.NestedRunsAppend | docx-generator/main.ts:50-58 | Nested tokens of a text child expand in order, each independently |
| ParagraphRuns.BreakRunsAreEmpty | docx-generator/main.ts:53-63 | Every run with a line break is the empty-text break run |
| ParagraphRuns.NestedBreakRunsAreEmpty | docx-generator/main.ts:53-54 | Nested `br` tokens give only the empty-text break run |
| ParagraphRuns.BoldOnlyFromNestedStrong | docx-generator/main.ts:48-66 | A bold run only ever comes from a `strong` token nested inside a `text` child, and carries that token's text |
| ParagraphRuns.NestedBoldSource | docx-generator/main.ts:55-56 | A bold run among nested runs has a `strong` token with its text at some position |
| ParagraphRuns.DirectStrongIsPlain | docx-generator/main.ts:62-65 | A direct `strong` child gives a plain run, not a bold one |
| ParagraphRuns.NestedStrongIsBold | docx-generator/main.ts:49-58 | Text, br, strong nested in a text child give plain, break and bold runs, in that order |
| ListRegistry.CountIsRegistrations | docx-generator/main.ts:117-119 | In a well-numbered registry the number of contract-list entries equals the number of registrations |
| ListRegistry.InstancesAreOneToN | docx-generator/main.ts:116-125 | After N registrations the instances are exactly 1..N: N entries, all in range, no instance reused |
| ListRegistry.Registry.constructor | docx-generator/main.ts:80 | The registry starts empty |
| ListRegistry.Registry.FreshId | docx-generator/main.ts:114 | A fresh list id is not yet registered; the registry's contents are unchanged |
| ListRegistry.Registry.RegisterOrdered | docx-generator/main.ts:116-125 | Registering adds exactly one contract-list entry whose instance is the number of earlier contract-list entries plus 1; numbering stays well formed |
| ListRegistry.Registry.Lookup | docx-generator/main.ts:137 | Looking up an id finds an entry exactly when it was registered. The entry found for the id registered i-th is the contract-list entry with instance i |
| TokenConverter.LevelToHeadingLevel | docx-generator/main.ts:33-43 | Heading depth d maps to heading level d, for each d in 1..6 |
| TokenConverter.HandleToken | docx-generator/main.ts:82-160 | The output is the specification function `Elements` of the token, with the reference resolved against the registry before the call. The registry grows by exactly one entry per ordered list in the token, keeps every earlier entry and stays well numbered |
| TokenConverter.RegistrationsKeepEntries | docx-generator/main.ts:121-124 | Later registrations never change or remove an earlier entry |
| TokenConverter.ElementsOfAllAppend | docx-generator/main.ts:127-134 | A list's output is the in-order concatenation of its items' outputs |
| TokenConverter.OrderedListCountOfAllAppend | docx-generator/main.ts:116-132 | Registrations of a token sequence add up over its parts |
| TokenConverter.ElementCount | docx-generator/main.ts:89-160 | heading, text, paragraph, space and list_item give exactly one paragraph; strong, br and unknown kinds give none; a list gives its items' |
| TokenConverter.ElementCountOfAll | docx-generator/main.ts:127-134 | The number of paragraphs of a token sequence is the sum over its tokens |
| TokenConverter.ElementsAreContent | docx-generator/main.ts:89-160 | A token never yields a page break or table of contents |
| TokenConverter.AllAreContent | docx-generator/main.ts:127-134 | The same holds for every token of a sequence |
| TokenConverter.ListParagraphs | docx-generator/main.ts:127-149 | A list of list items yields exactly one numbered paragraph per item, in order, at level `opts.level+1` or 0, with the list's reference |
| TokenConverter.ItemsParagraphs | docx-generator/main.ts:136-149 | Item i of a list yields its item paragraph at position i |
| TokenConverter.ReferencesAreKnown | docx-generator/main.ts:129-145 | Every numbered paragraph refers to "contract-list" or "dash-bullets" |
| TokenConverter.AllReferencesAreKnown | docx-generator/main.ts:127-134 | The same holds for every token of a sequence |
| TokenConverter.TopLevelNumberingIsLevelZero | docx-generator/main.ts:130-146 | A top-level token yields numbering level 0 only, since nested lists are never reached |
| ContractAssembly.BuildDocx | docx-generator/main.ts:162-168 | The children are the concatenation of the tokens' outputs, each with an empty context. The registry grows by the number of ordered lists |
| ContractAssembly.JoinWithBreaksAppend | docx-generator/main.ts:181-188 | Appending a section after earlier ones inserts exactly one page break before it |
| ContractAssembly.SectionsStep | docx-generator/main.ts:173-181 | Converting one more section appends its elements and adds its ordered lists to the count |
| ContractAssembly.AssembledStep | docx-generator/main.ts:181-188 | Each loop round appends the section's children, then a page break unless it is the last section |
| ContractAssembly.GenerateDocx | docx-generator/main.ts:170-295 | The document's numbering is the two declared definitions. Its children are the table of contents, a page break, then the sections separated by page breaks with no trailing break |
| ContractAssembly.CountPageBreaksAppend | docx-generator/main.ts:181-188 | Page breaks of a concatenation add up |
| ContractAssembly.ContentHasNoPageBreaks | docx-generator/main.ts:89-160 | Converted content holds no page break |
| ContractAssembly.JoinedPageBreaks | docx-generator/main.ts:182-188 | n joined sections contain exactly n-1 page breaks |
| ContractAssembly.JoinedAreContent | docx-generator/main.ts:181-188 | Joined sections contain only content and the page breaks between them |
| ContractAssembly.SectionsAreContent | docx-generator/main.ts:179 | Every section's children are content |
| ContractAssembly.DocumentShape | docx-generator/main.ts:286-295 | The children start with the table of contents and a page break. No other table of contents appears. There are exactly 12 page breaks: one after the summary and 11 between the 12 sections |
| ContractAssembly.SectionReferencesAreKnown | docx-generator/main.ts:145 | Every section refers only to the two declared numbering references |
| ContractAssembly.JoinedReferences | docx-generator/main.ts:181-188 | Joining sections keeps that property |
| ContractAssembly.NumberingReferencesDefined | docx-generator/main.ts:192-224 | Every numbered paragraph of the document names a reference the numbering configuration defines |
| ContractAssembly.SectionLevelsAreZero | docx-generator/main.ts:165 | A section of lexer-shaped tokens numbers at level 0 only |
| ContractAssembly.JoinedLevelsAreZero | docx-generator/main.ts:181-188 | Joining sections keeps that property |
| ContractAssembly.NumberingLevelsDefined | docx-generator/main.ts:192-224 | Every numbered paragraph's reference and level pair is defined by the numbering configuration |
| ClausuleModel.OnePlaceholderPerCondition | backend/models/Clausule.js:23-27 | A condition on a column without `?` holds exactly one placeholder |
| ClausuleModel.JoinedPlaceholders | backend/models/Clausule.js:30 | Joining one-placeholder conditions with a placeholder-free separator gives one placeholder per condition |
| ClausuleModel.JoinedConditionPlaceholders | backend/models/Clausule.js:30 | The same for the " AND " separator |
| ClausuleModel.PlaceholderFreeFrame | backend/models/Clausule.js:30-33 | Placeholder-free text before and after the conditions adds no placeholder |
| ClausuleModel.FilteredQueryPlaceholders | backend/models/Clausule.js:30-33 | A filtered query holds one placeholder per condition |
| ClausuleModel.GetAllQuery | backend/models/Clausule.js:12-33 | There are four cases. WHERE appears exactly when categorie is truthy or actief is defined. Conditions and parameters come in the order categorie, actief. ORDER BY always ends the query. The number of `?` equals the number of parameters, and an unfiltered query holds none; the placeholder counts of the literal query pieces are checked inside this lemma |
| ClausuleModel.CreateParams | backend/models/Clausule.js:86-97 | Nine parameters in column order. Versie defaults to "1.0", auteur to "Systeem", tags to "". Versie and auteur are always truthy. Both timestamps are the same `now` |
| ClausuleModel.UpdateParams | backend/models/Clausule.js:118-129 | Nine parameters with the id last. Versie and auteur pass through undefaulted. Actief is 1 or 0, and 0 exactly when defined and falsy. Tags default to "" |
| ClausuleModel.CreateDefaultsAreStable | backend/models/Clausule.js:92-94 | Creating from the stored values stores the same parameters: the defaults are idempotent |
| ClausuleModel.UpdateDoesNotDefault | backend/models/Clausule.js:123-125 | For missing versie and auteur, create stores the defaults while update passes `undefined`. A missing actief becomes 1 |
| Sanitize.SanitizeInputIdempotent | utils/sanitize.js:18-36 | With an idempotent purifier, sanitizing an input twice equals sanitizing it once. It builds on `SanitizeInput`'s contract: strings go through the purifier and every other value is returned unchanged |
| Sanitize.Sanitize | utils/sanitize.js:44-79 | Falsy values and non-objects are returned unchanged. Every object or array comes back as a plain object |
| Sanitize.SanitizeKeys | utils/sanitize.js:49-78 | The result's keys are exactly the keys of the input's entries except `__proto__`. Without a `__proto__` entry, the keys are all kept in order |
| Sanitize.ProtoPropertyDropped | utils/sanitize.js:54-74 | A `__proto__` property holding a string goes to the inherited setter, which ignores it, so the result has no own property |
| Sanitize.AssignedMembers | utils/sanitize.js:51-76 | After the assignments, the fresh object's own properties are exactly the assigned properties whose key is not `__proto__` |
| Sanitize.AssignedWithoutProto | utils/sanitize.js:51-76 | Assigning entries that contain no `__proto__` key into a fresh object gives exactly those entries |
| Sanitize.IndexKeyIsNotProto | utils/sanitize.js:51 | An array index key starts with a digit and is never `__proto__` |
| Sanitize.SanitizeObject | utils/sanitize.js:44-79 | The key-by-key loop assigns each cleaned entry into a fresh object, dropping a `__proto__` key, and computes exactly `Sanitize` |
| Sanitize.EntryRules | utils/sanitize.js:51-76 | Excluded keys are kept verbatim. Nested objects are sanitized with the same excluded keys. Arrays get only their strings purified. Strings are purified. Other values are kept |
| Sanitize.IdentityPurifierKeepsObjects | utils/sanitize.js:44-79 | With a purifier that changes nothing, sanitizing an object that has no `__proto__` key at any depth returns it unchanged: only strings are ever altered |
| Sanitize.IdentityPurifierKeepsEntries | utils/sanitize.js:51-76 | The same for each entry's value |
| Sanitize.SanitizeIdempotent | utils/sanitize.js:44-79 | With an idempotent purifier, sanitizing twice equals sanitizing once |
| Sanitize.EntryIdempotent | utils/sanitize.js:51-76 | The same for each entry's value |
| Sanitize.ArrayBecomesObject | utils/sanitize.js:49-51 | A top-level array comes back as an object keyed "0", "1", ... |
| Cors.Split | backend/config/cors.js:7 | Splitting on ',' gives at least one piece. No piece contains ','. Joining the pieces with ',' gives back the input, so nothing is trimmed or lost |
| Cors.SplitJoin | backend/config/cors.js:7 | Splitting a comma-join of comma-free pieces gives back exactly those pieces |
| Cors.AllowedOrigins | backend/config/cors.js:6-8 | An unset or empty variable gives the two localhost defaults. Otherwise the list is the comma-split of the value |
| Cors.DefaultOriginsAllowed | backend/config/cors.js:6-22 | Without configuration, exactly `http://localhost:8080`, `http://localhost:3001` and a missing or empty origin pass. Every other origin is rejected with "Not allowed by CORS" |
| Cors.ListedOriginAllowed | backend/config/cors.js:6-18 | Every configured origin is accepted verbatim, and the configured list is exactly the given pieces |
| Cors.ConfiguredOriginAllowed | backend/config/cors.js:6-22 | With a configuration, a non-empty origin passes exactly when it is one of the configured pieces. Otherwise it is rejected with "Not allowed by CORS" |
| Cors.OriginWithCommaDenied | backend/config/cors.js:7-22 | An origin containing a comma is always rejected under a configured list |
| Cors.NoTrimming | backend/config/cors.js:7-17 | Configuration "a, b" accepts " b" but rejects "b": no whitespace is trimmed |

## Left out

- The following are I/O or foreign formatting and are not modelled. The model takes a given
  token tree per section.
  - Reading the clause templates (`Bun.file`).
  - Rendering them with `fileTemplate`/Handlebars.
  - The `marked.lexer` tokenizer.
- The `docx` library is not modelled: `Paragraph`, `TextRun`, `Packer` and the file writing are
  foreign. Paragraphs are plain values. The following carry no logic and are left out:
  - paragraph styles (font, size, colour);
  - heading styles;
  - page margins and `twipsMeasureValue`;
  - numbering alignment and indents.
- `crypto.randomUUID`: the registry's `FreshId` hands out a counter, so ids are unique by
  construction.
- The broken plumbing of `generateDocx` is not modelled:
  - `await` in a non-async function;
  - returning the undefined `docx` instead of `doc`;
  - passing the section name where template text is expected.

  `ContractAssembly.GenerateDocx` returns the assembled document.
- The database calls of `Clausule.js` (`db.all`, `db.run`, promises, `lastID`/`changes`) and the
  other Clausule methods (`getById`, `delete`, `importFromFiles`) are not modelled. Neither is
  the rest of the Express/SQLite backend. These are I/O and request plumbing.
- The clock: `new Date().toISOString()` is the parameter `now`.
- DOMPurify's behaviour, and with it `stripHTML`, are not modelled. The purifier is the
  parameter `purify`, and `stripHTML` is `SanitizeInput` with a tag-stripping purifier.
- `console.log` of blocked origins, and the `credentials` / `optionsSuccessStatus` options,
  are not modelled.
- JavaScript numbers are modelled as integers, so NaN, -0 and fractions are left out. Truthiness
  is exact for the integer, string, boolean, null, undefined, array and object values modelled.
- The prototype side effect of a `__proto__` key is not modelled. When its value is an object or
  null, that value becomes the result's prototype: an object's properties become visible on the
  result through inheritance, and null leaves the result with no prototype at all. The model
  keeps only own properties and drops the key.
- Objects are taken to have distinct keys, as JavaScript objects do. A property list with a
  repeated key is not collapsed to its last assignment.
- `Object.entries` key order: JavaScript lists integer-like keys of a plain object first, in
  numeric order. The model keeps properties in their given order.
- TokenConverter.LevelToHeadingLevel: a heading depth outside 1..6 would give an undefined
  heading level in the source. The token type restricts depth to 1..6, as the Markdown lexer
  guarantees, so that case is not modelled.
