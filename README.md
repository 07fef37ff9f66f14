# Kindle dictionary content, modelled in Dafny

`create.mjs` turns a file of JSON records (one dictionary definition per line, in the
Wiktextract layout) into the sources of a Kindle dictionary. This project models the part
that produces the dictionary body, `content.html`:

- **`createNestedList`** (module `SenseOutline`, `sense_outline.dfy`): the recursive sense
  outline. Senses are grouped by their gloss at the current depth, in order of first
  appearance. Each group becomes an `<li>` holding that gloss and the group's outline one
  level deeper, and the groups are wrapped in `<ol>`…`</ol>`. The markup is modelled as a
  sequence of tokens, so that nesting and the top level can be stated without looking
  inside gloss texts.
- **`createDictionaryEntry`** (module `DictionaryEntry`, `dictionary_entry.dfy`): renders
  one record as an `<idx:entry>`. JavaScript truthiness, `Array.isArray`, template
  interpolation of `undefined`/`null`, and the three `TypeError`s the renderer can raise
  (`.filter` of a truthy non-array, `.word` of a `null` translation, and indexing
  `undefined` inside createNestedList) are modelled explicitly (module `Js`, `js.dfy`). A rendering is a `Result` that either
  returns the entry or throws.
- **The line handler and the content stream** (module `Conversion`, `content_stream.dfy`):
  - The stream holds the document header.
  - Each line contributes the entry of its record when the record parses, its `lang_code`
    is one of the 18 listed codes, and rendering does not throw.
  - The close handler appends the footer and ends the stream.
  - `ContentStream` is a class whose `text` field the writes extend.
  - `CreateContent` runs the handlers over a sequence of lines and is proved to produce
    `Content(lines)`.

Module `Sequences` (`sequences.dfy`) has the generic operations behind `[...new Set(…)]`,
`filter` and `map`. Module `Wrappers` (`wrappers.dfy`) has `Option`.

### Behaviour of the code that the model keeps

- createNestedList's early return looks only at the **first** sense's length. A later,
  shorter sense yields the key `undefined`, which is printed as "undefined".
- createDictionaryEntry maps each sense with `Array.isArray(sense) ? sense.glosses : []`.
  A sense object, which is what the dataset holds, becomes `[]`, and then createNestedList
  returns "" at depth 0. A sense that is itself an array becomes `undefined`.
  - If that sense is first, createNestedList indexes `undefined` and throws, and the
    record is dropped.
  - If it comes later, the early return on the first sense's `[]` comes first, so it is
    never reached.
  - So no sense outline is ever emitted.
- Entries are written in input order, one per contributing line, with the record's
  strings interpolated as they are (quotes included).
- The part of speech is printed as `<i>${lang} ${pos}</i> `, with `pos` as it stands.
  Pronunciations (`sounds`) are rendered.
- Everything goes into a single `content.html`.

## Model

| member | source | states |
|---|---|---|
| SenseOutline.CreateNestedList | create.mjs:168-181 | returns "" exactly on the early return: no senses, or a first sense that is an array too short for `depth`. Otherwise it throws exactly when some sense is `undefined` (the `sense[depth]` read in `map`), and else returns a string that starts with `<ol>` and ends with `</ol>` (that this is one element is OutlineOneElement) |
| SenseOutline.KeyAt | create.mjs:173 | `sense[depth]` is the gloss at `depth` when the sense is long enough, and `undefined` otherwise |
| SenseOutline.KeysAt | create.mjs:173 | `senses.map(sense => sense[depth])` has one key per sense, the i-th being the i-th sense's key |
| SenseOutline.KeyText | create.mjs:177 | `${entry}` prints a gloss as itself and a missing one as "undefined" |
| SenseOutline.ListTokens | create.mjs:169-180 | the markup of one level is empty exactly on the early return, and otherwise starts with `<ol>` and ends with `</ol>` |
| SenseOutline.ItemTokens | create.mjs:175-178 | the `forEach` yields nothing exactly when there are no keys, and otherwise starts with an `<li>` and ends with a `</li>` |
| SenseOutline.NestedList | create.mjs:168-181 | on arrays of glosses the outline is empty exactly when there are no senses or `depth >= senses[0].length`, and otherwise starts with `<ol>` and ends with `</ol>` |
| SenseOutline.Longest | create.mjs:168-181 | the termination measure: at least the length of the first sense, which the early return compares `depth` with |
| SenseOutline.LongestIsMaximum | create.mjs:168-181 | the measure bounds every sense's length and is reached by one of them |
| SenseOutline.Matching | create.mjs:176 | a group (`filter`) never holds a longer sense than the senses it is taken from, so the recursion one level deeper terminates |
| SenseOutline.MatchingExact | create.mjs:176 | a group holds every sense whose key at `depth` equals the group's key, as many times as it occurs, and no other sense |
| SenseOutline.MatchingInOrder | create.mjs:176 | a group keeps its senses in their input order (it is a subsequence of the senses) |
| SenseOutline.GroupsPartition | create.mjs:173-178 | the groups for the distinct keys together hold exactly the senses (as a multiset), so every sense lands in exactly one group |
| SenseOutline.OutlineWellNested | create.mjs:174-180 | the outline's `<ol>`/`<li>` tags are balanced and properly nested at every depth: `<li>` only directly in `<ol>`, nested `<ol>` only in `<li>`, gloss text only in `<li>` |
| SenseOutline.OutlineTopLevel | create.mjs:173-178 | a non-empty outline ends at the level it starts at and has exactly one top-level `<li>` per distinct key. Each holds that key's text, every sense's key is among them, none repeats, and they come in the order of first appearance among the senses |
| SenseOutline.OutlineOneElement | create.mjs:174-180 | a non-empty outline is a single `<ol>` element: the `<ol>` its first token opens stays open until its last token, so no proper prefix of it is back at the outermost level |
| SenseOutline.NestedListAbove | create.mjs:168-181 | a nested outline never closes a tag opened before it |
| SenseOutline.NestedItemsAbove | create.mjs:175-178 | the items of an outline never close the `<ol>` around them, and together they close every tag they open |
| Sequences.Distinct | create.mjs:173 | `[...new Set(keys)]` is never longer than the keys and is non-empty when they are |
| Sequences.DistinctMembers | create.mjs:173 | `[...new Set(keys)]` holds exactly the keys, each once |
| Sequences.DistinctOrder | create.mjs:173 | `[...new Set(keys)]` lists the keys in the order of their first occurrence |
| Sequences.FirstIndex | create.mjs:173 | the position of the first occurrence, which fixes a key's place in the `Set` |
| Sequences.MapEach | create.mjs:173 | `xs.map(f)` has one value per element: the i-th is `f` of the i-th element |
| Sequences.FilterMap | create.mjs:153 | `xs.filter(p).map(f)` is never longer than `xs` |
| Sequences.Positions | create.mjs:153 | the positions that pass a `filter` test, increasing, all of them and only them |
| Sequences.FilterMapAtPositions | create.mjs:153 | `filter(p).map(f)` yields `f` of the k-th passing element at index k, and nothing else |
| DictionaryEntry.Inflections | create.mjs:153 | the `<idx:infl>` block is present exactly when `translations` is truthy, an empty array included (then `<idx:infl></idx:infl>`). It throws when `translations` is a truthy non-array (no `filter`) or holds `null` (reading `.word`) |
| DictionaryEntry.Iform | create.mjs:153 | each line is `<idx:iform value="w" />`, with the translation's word for a translation that has one |
| DictionaryEntry.InflectionsInOrder | create.mjs:153 | the block holds one `<idx:iform value="w" />` line per translation with a non-empty `word`, in translation order, and no other line |
| DictionaryEntry.Phonetic | create.mjs:155-160 | the `<phonetic>` element is present exactly when `sounds` is a non-empty array |
| DictionaryEntry.SoundText | create.mjs:157 | a sound prints as its tags joined by `, ` in `<i>…</i>` when `tags` is an array, then a space and its IPA, and nothing else; without tags, as the space and the IPA alone |
| DictionaryEntry.PartOfSpeech | create.mjs:164-166 | the `<i>lang pos</i> ` note is present exactly when `pos` is truthy |
| DictionaryEntry.SenseOutlineOf | create.mjs:183-186 | no outline is ever emitted: the result is a throw (`undefined[0]`) when the first sense is an array, and "" otherwise |
| DictionaryEntry.FormatSense | create.mjs:184 | a sense that is an array becomes `undefined` (its missing `glosses`), and every other sense becomes `[]`, so no gloss is ever read |
| DictionaryEntry.Etymology | create.mjs:190-192 | the etymology line is present exactly when `etymology_text` is truthy |
| DictionaryEntry.Forms | create.mjs:194-197 | the forms line is present exactly when `forms` is a non-empty array |
| DictionaryEntry.FormText | create.mjs:195 | a form prints as its name when that is truthy, then ` (`, its tags joined by `, ` when `tags` is an array, then `)`, and nothing else; a `null` form prints as ` ()` |
| DictionaryEntry.Synonyms | create.mjs:199-202 | the synonyms line is present exactly when `synonyms` is a non-empty array |
| DictionaryEntry.SynonymText | create.mjs:200 | a synonym prints as its word when that is truthy, and as "" otherwise |
| DictionaryEntry.CreateDictionaryEntry | create.mjs:150-207 | throws exactly when `translations` throws or the first sense is an array. Otherwise the entry begins with `<idx:entry name="default" scriptable="yes" spell="yes">`, `<dt>`, `<idx:orth>` and ends with `</idx:entry>` |
| DictionaryEntry.EntryLayout | create.mjs:150-207 | a rendered entry is the headword with its inflections, the pronunciation, a `<dd>` holding only the part-of-speech note, then etymology, forms and synonyms, in that order |
| Conversion.LangCodesDistinct | create.mjs:117-136 | the list names 18 languages, each once, by a two-letter code |
| Conversion.Listed | create.mjs:138 | `langCodes.includes(def.lang_code)` holds only of a string equal to a listed code, so of a non-empty two-letter string |
| Conversion.Contributes | create.mjs:138-141 | a line yields an entry only when it parsed and its language code is listed |
| Conversion.LineOutputEmpty | create.mjs:138-147 | the handler writes something exactly when the line contributes (that it is then a whole `<idx:entry>` is LineContributes) |
| Conversion.Entries | create.mjs:114-148 | the handler writes at most one entry per line (which entries, and in what order, is ContentLayout) |
| Conversion.ContentFrame | create.mjs:71-215 | content.html begins with the header written at create.mjs:71-106 and ends with the footer written at create.mjs:210-214 |
| Conversion.FooterClosesDocument | create.mjs:210-214 | the footer closes the `<mbp:frameset>` first and the `<html>` document last |
| Conversion.LineContributes | create.mjs:114-148 | a line yields output exactly when it parses, its `lang_code` is one of the 18 codes, `translations` does not throw and the first sense is not an array. What it yields is a whole `<idx:entry>`, and otherwise it yields nothing |
| Conversion.ContentLayout | create.mjs:71-215 | content.html is the header, then the entry of every contributing line in line order, then the footer |
| Conversion.EntriesSnoc | create.mjs:114-148 | one more line adds its output, if any, after the entries of the lines before it |
| Conversion.EntriesStep | create.mjs:114-148 | handling one more line appends that line's output to whatever the stream already holds |
| Conversion.ContentStream.constructor | create.mjs:70 | the stream starts empty and open |
| Conversion.ContentStream.Write | create.mjs:71 | a write appends its chunk and nothing else |
| Conversion.ContentStream.End | create.mjs:215 | ending keeps the text and closes the stream |
| Conversion.OnLine | create.mjs:114-148 | the line handler appends exactly that line's output |
| Conversion.OnLines | create.mjs:114-148 | the handler run on every line in order appends exactly the entries of the lines, in line order |
| Conversion.OnClose | create.mjs:209-216 | the close handler appends the footer and ends the stream |
| Conversion.CreateContent | create.mjs:70-216 | the header write, the handler over every line in order, and the close handler produce exactly `Content(lines)` |

## Left out

- Reading the definitions file (`fs`, `readline`), the output directory and the file writes are I/O. The lines are a parameter, and the stream is a string in memory.
- `JSON.parse` is foreign code. A line arrives already parsed. A parse failure and a `null` record are both `None`, because both end in the `catch`.
- A record's field values are not modelled in full. Scalar fields are `undefined`, `null` or a string. A field the renderer tests with `Array.isArray` is either an array or a value known only by its truthiness. Other JavaScript values, such as numbers or objects with their own `filter`, are not modelled.
- Console output (`console.log`, `console.error`) is not modelled. It does not affect the document.
- The OPF package, cover and copyright pages, the `uuid` identifier and the command-line arguments are not modelled. They are separate templates filled from arguments and do not depend on the records.
- The asynchronous interleaving of the `line` and `close` events with the other file writes is not modelled. The lines are handled in order, and then the close handler runs.
- Conversion.CreateContent: writing to a stream after `contentStream.end()` is an error in Node. The model forbids it with a precondition on `Write` and does not model the error.
- SenseOutline.CreateNestedList: senses whose elements are anything other than arrays of strings or `undefined` are not modelled, and neither are `senses` arguments that are not arrays. The renderer only ever passes arrays whose elements are `[]` or `undefined`.
