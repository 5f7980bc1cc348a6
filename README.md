# SoupMate ETL — a Dafny model

SoupMate imports soup recipes from the Spoonacular search API into PostgreSQL.
The importer is `backend/soupmate-etl/etl_soupmate_import.py`. It pages through
search results. For each record it upserts a recipe row, its ingredients and
ingredient links, and a nutrition row. It then appends retrieval chunks: the
title, an ingredient bullet block, and the instructions' non-blank lines packed
greedily into chunks of at most 1000 characters, where a longer line forms a chunk
of its own. Each page is committed on its own.

This project models that importer in Dafny and proves properties of the model.

- `wrappers.dfy`: `Option` and `Result`.
- `text.dfy` (module `Text`): Python's whitespace set, `str.strip`, `str.lower`,
  `str.split()`, `str.split("\n")` and `str.join`, and `norm`.
  `norm` is proved idempotent, and its fixed points are characterised.
- `signature.dfy` (module `Signature`): `sorted` on strings, modelled as
  insertion sort by code point, and the string `make_signature` hashes. The hash
  is a parameter `hash: string -> string`.
- `chunking.dfy` (module `Chunking`): `chunk_ingredients`, `split_instructions`
  (a method with its loop, proved against a function) and the chunk list
  `insert_chunks` builds.
- `payload.dfy` (module `Payload`): the search record as a typed value with
  optional members, and the field mapping of `upsert_recipe` and `upsert_nutrition`.
- `store.dfy` (module `Store`): the tables as maps keyed by their conflict keys,
  plus the append-only chunk list. Each write's effect is a function of the tables
  before it. The class `Database` is a connection with autocommit off: live
  tables, the committed tables, and id sequences.
- `importer.dfy` (module `Importer`): the `import_soups` loop, with the search
  endpoint as a function from a request (limit, offset) to a page or an HTTP error.

Behaviour of the code that the model keeps:

- A blank ingredient line becomes a bare `"- "` bullet and is hashed as `""`.
- Instructions are stored as sent, markup included: `instructions_raw` and
  `instructions_plain` are the same text.
- Instructions made only of whitespace give one chunk, `instr[:max_len]`.
- A first paragraph longer than `max_len` makes the first chunk `""`.
- Old chunks are never deleted: re-importing a record appends its chunks again.
- Any HTTP error status, 402 or another, stops the import; no request is
  retried.

## Model

| member | source | states |
|---|---|---|
| `Text.Strip` | backend/soupmate-etl/etl_soupmate_import.py:31 | the result is the input with exactly its leading and trailing whitespace removed: a slice of the input whose outside is all whitespace and whose ends are not whitespace; it is empty exactly when the input is all whitespace |
| `Text.WordsAreWords` | backend/soupmate-etl/etl_soupmate_import.py:31 | every piece of `str.split()` is a non-empty run of non-whitespace |
| `Text.NormIsNormal` | backend/soupmate-etl/etl_soupmate_import.py:30-31 | `norm`'s output is lower case, has no leading or trailing whitespace, and has only single plain spaces between words |
| `Text.NormFixedPoints` | backend/soupmate-etl/etl_soupmate_import.py:30-31 | `norm(t) == t` exactly when `t` is in that normal form |
| `Text.NormIdempotent` | backend/soupmate-etl/etl_soupmate_import.py:30-31 | `norm(norm(s)) == norm(s)` for every string |
| `Text.NormKeepsWords` | backend/soupmate-etl/etl_soupmate_import.py:30-31 | `norm(s)` is the whitespace-separated words of `s`, in order, each lowercased, joined by single spaces |
| `Text.NormBlank` | backend/soupmate-etl/etl_soupmate_import.py:30-31 | `norm(s) == ""` exactly when `s` is empty or all whitespace |
| `Text.NormOrEmpty` | backend/soupmate-etl/etl_soupmate_import.py:31 | `None` normalises to `""` |
| `Text.JoinSplit` | backend/soupmate-etl/etl_soupmate_import.py:43 | joining the parts of `s.split(sep)` with `sep` gives `s` back |
| `Text.SplitJoin` | backend/soupmate-etl/etl_soupmate_import.py:34 | splitting a join of separator-free parts gives the parts back |
| `Signature.SortStrings` | backend/soupmate-etl/etl_soupmate_import.py:34 | `sorted` returns a permutation of its input |
| `Signature.SortStringsSorted` | backend/soupmate-etl/etl_soupmate_import.py:34 | `sorted` returns its input in ascending code-point order |
| `Signature.SortPermutationInvariant` | backend/soupmate-etl/etl_soupmate_import.py:34 | permutations of each other sort to the same list |
| `Signature.SignatureDependsOnNormalForms` | backend/soupmate-etl/etl_soupmate_import.py:33-35 | the hashed base string, and so the signature for any hash, depends only on `norm(title)` and on the multiset of normalised ingredient lines |
| `Signature.SignaturePermutationInvariant` | backend/soupmate-etl/etl_soupmate_import.py:33-35 | reordering the ingredient lines leaves the signature unchanged |
| `Signature.SignatureCaseAndSpacingInvariant` | backend/soupmate-etl/etl_soupmate_import.py:33-35 | changing the case or spacing of the title or of any line, and reordering the lines, leaves the signature unchanged |
| `Signature.SignatureBaseInjective` | backend/soupmate-etl/etl_soupmate_import.py:34 | when no normalised text holds a bar character and both lists are non-empty, equal base strings mean equal normalised titles and equal multisets of normalised lines |
| `Signature.EmptyAndBlankListsCollide` | backend/soupmate-etl/etl_soupmate_import.py:34 | blank lines are hashed, not dropped: no ingredients and a single blank line give the same base string, `norm(title)` followed by a bar |
| `Chunking.IngredientsBlockLines` | backend/soupmate-etl/etl_soupmate_import.py:37-38 | no lines give `""`; otherwise, when no line contains a newline, the block splits on newlines into exactly one `"- " + line` per line, in order |
| `Chunking.IngredientsTokenCount` | backend/soupmate-etl/etl_soupmate_import.py:204-205 | the ingredients chunk's word count is the number of lines plus the words in them |
| `Chunking.PackParagraphs` | backend/soupmate-etl/etl_soupmate_import.py:44-51 | the packing loop ends in the state the greedy step function gives for the paragraphs |
| `Chunking.SplitInstructions` | backend/soupmate-etl/etl_soupmate_import.py:40-54 | the method returns the chunks of the `split_instructions` specification |
| `Chunking.SplitEmpty` | backend/soupmate-etl/etl_soupmate_import.py:41-42 | the result is `[]` exactly for empty input; any non-empty input gives a non-empty list |
| `Chunking.SplitBlank` | backend/soupmate-etl/etl_soupmate_import.py:54 | all-whitespace input gives the single chunk `instr[:max_len]` |
| `Chunking.SplitPacked` | backend/soupmate-etl/etl_soupmate_import.py:52-53 | with at least one paragraph, the result is the closed chunks followed by a non-empty final chunk |
| `Chunking.SplitBound` | backend/soupmate-etl/etl_soupmate_import.py:43-53 | every chunk is at most `max_len` characters or is exactly one stripped paragraph |
| `Chunking.SplitKeepsOrder` | backend/soupmate-etl/etl_soupmate_import.py:43-53 | with at least one paragraph (whitespace-only input gives the single `instr[:max_len]` chunk, for which it fails), the non-empty chunks joined with `"\n"` equal the non-blank stripped lines joined with `"\n"`, and splitting that on newlines gives back the paragraphs |
| `Chunking.SplitLeadingEmpty` | backend/soupmate-etl/etl_soupmate_import.py:46-49 | with at least one paragraph, the first chunk is `""` exactly when the first paragraph alone exceeds `max_len`; no later chunk is empty |
| `Chunking.SplitGreedy` | backend/soupmate-etl/etl_soupmate_import.py:45-51 | no two neighbouring chunks would have fitted into one |
| `Chunking.AssembleChunks` | backend/soupmate-etl/etl_soupmate_import.py:202-207 | the appends give title, ingredients, then one chunk per instruction part |
| `Chunking.BuildChunks` | backend/soupmate-etl/etl_soupmate_import.py:201-207 | the chunk list is the layout of the title, the ingredient lines and `split_instructions(instructions_plain or "")` |
| `Chunking.LayoutShape` | backend/soupmate-etl/etl_soupmate_import.py:201-207 | there are two more chunks than parts: the title first, the ingredients block second, then the parts in order; every token count is the whitespace word count of the content |
| `Chunking.NoInstructionChunks` | backend/soupmate-etl/etl_soupmate_import.py:206 | there are no instruction chunks exactly when the plain instructions are `None` or `""` |
| `Payload.IngredientTextFallback` | backend/soupmate-etl/etl_soupmate_import.py:103 | an ingredient's text is the first non-empty one of `original`, `originalName` and `name` (default `""`); it is `None` only for an explicit null name |
| `Payload.CollectIngredients` | backend/soupmate-etl/etl_soupmate_import.py:100-111 | one text and one item per entry, in order; items take `name or ""`, `amount` and `unit`, and have `grams = None` and `note = ""` |
| `Payload.FieldsMapping` | backend/soupmate-etl/etl_soupmate_import.py:90-98 | the title defaults to `"Untitled"` and is never empty; both instruction columns are the instructions or, when empty, the summary; absent lists become `[]`; intolerances are `[]`, the language is `"de"` and `is_soup` holds |
| `Payload.IdTextInjective` | backend/soupmate-etl/etl_soupmate_import.py:141 | `str(id)` gives different keys for different ids, and a missing id never collides with a present one |
| `Payload.IndexByLastWins` | backend/soupmate-etl/etl_soupmate_import.py:183 | the dict comprehension maps a key to the last entry with that key, and holds only keys some entry has |
| `Payload.FactsLookup` | backend/soupmate-etl/etl_soupmate_import.py:181-190 | each nutrient value is the amount of the last nutrient whose `norm`'d name matches, else `None`; carbs try `carbohydrates` before `carbs` |
| `Payload.LookupByNormalForm` | backend/soupmate-etl/etl_soupmate_import.py:183-184 | a nutrient is found under the normal form of its name, whatever the case and spacing it was sent with |
| `Store.SourceUpsert` | backend/soupmate-etl/etl_soupmate_import.py:83-87 | after `ensure_source` the name has exactly one row; an existing row keeps its id; a second call changes no table |
| `Store.RecipeUpsert` | backend/soupmate-etl/etl_soupmate_import.py:116-147 | one row per `(source_id, source_recipe_id)` holding the new values; an existing row keeps its id and gets an update time; no other row changes |
| `Store.RecipeIdsDistinct` | backend/soupmate-etl/etl_soupmate_import.py:116-147 | in a state where ids are distinct and below the sequence, the id the upsert returns is below the advanced sequence and no other recipe key has it, so rows written under it never mix with another recipe's |
| `Store.RecipeReupsert` | backend/soupmate-etl/etl_soupmate_import.py:123-138 | upserting the same values again changes only the update time |
| `Store.IngredientsInserted` | backend/soupmate-etl/etl_soupmate_import.py:155-158 | after the insert-or-nothing, every listed name has a row; existing rows keep their ids; new ids come from this insert; no other table changes |
| `Store.IngredientsPresent` | backend/soupmate-etl/etl_soupmate_import.py:155-158 | inserting names that all have rows changes no table |
| `Store.NamesResolvable` | backend/soupmate-etl/etl_soupmate_import.py:159-167 | once the unique names are inserted, `id_map[n]` is defined for every item with a non-empty normalised name |
| `Store.NoNamesNoKeys` | backend/soupmate-etl/etl_soupmate_import.py:152-153 | when the set of unique names is empty, every item's normalised name is `""` |
| `Store.JoinRowsLength` | backend/soupmate-etl/etl_soupmate_import.py:162-168 | there are at most as many join rows as items |
| `Store.JoinRowsOrigin` | backend/soupmate-etl/etl_soupmate_import.py:162-168 | every join row comes from an item with a non-empty normalised name, with that name's id, the item's unit, note and quantities |
| `Store.JoinRowsCover` | backend/soupmate-etl/etl_soupmate_import.py:162-168 | every item with a non-empty normalised name has its row |
| `Store.NoKeysNoRows` | backend/soupmate-etl/etl_soupmate_import.py:164-166 | items whose normalised names are all empty give no join rows |
| `Store.ConflictNeedsDuplicates` | backend/soupmate-etl/etl_soupmate_import.py:171-178 | the join upsert fails only when a conflict key repeats; with up to 100 rows it fails exactly then |
| `Store.UpsertJoinsLastWins` | backend/soupmate-etl/etl_soupmate_import.py:171-178 | a key is stored exactly when it was before or a row has it, and then holds the quantities of the last such row, or else its old ones |
| `Store.UpsertJoinsIdempotent` | backend/soupmate-etl/etl_soupmate_import.py:171-178 | upserting the same join rows twice leaves the table as upserting them once |
| `Store.ChunksAppended` | backend/soupmate-etl/etl_soupmate_import.py:201-213 | the chunk table grows by one row per chunk of the layout, two more than the instruction parts, in layout order and for the recipe; nothing is deleted |
| `Store.IngredientsAndJoinsKeepRecipes` | backend/soupmate-etl/etl_soupmate_import.py:151-178 | the ingredient and join step leaves the recipe, nutrition and chunk tables alone |
| `Store.JoinsStable` | backend/soupmate-etl/etl_soupmate_import.py:151-178 | after one successful run, the ingredient and join step changes no table, whatever order the set yields the names in |
| `Store.ReapplyWrites` | backend/soupmate-etl/etl_soupmate_import.py:228-231 | applying a record's writes a second time with the same timestamp succeeds; only the recipe's update time changes, plus the chunks appended once more (at a later timestamp, `Store.RecipeUpsert` and `Store.JoinsStable` give the same with `last_fetched_at` also refreshed) |
| `Store.ReimportSameRecord` | backend/soupmate-etl/etl_soupmate_import.py:227-231 | importing the same record twice with the same timestamp leaves one recipe row with the same id and values, the same ingredient, join and nutrition rows, and its chunks twice |
| `Store.Database.EnsureSource` | backend/soupmate-etl/etl_soupmate_import.py:83-87 | the returned id is that of the source row with the name, created if absent |
| `Store.Database.UpsertRecipe` | backend/soupmate-etl/etl_soupmate_import.py:89-149 | writes the record's row under its key and returns its id, which no other recipe row has, with the items, texts, title and plain instructions |
| `Store.Database.WriteRecipe` | backend/soupmate-etl/etl_soupmate_import.py:116-147 | the insert-or-update statement with `returning id` |
| `Store.Database.InsertIngredientNames` | backend/soupmate-etl/etl_soupmate_import.py:152-158 | inserts every unique name once, in the order the set yields them |
| `Store.Database.BuildJoinRows` | backend/soupmate-etl/etl_soupmate_import.py:162-168 | the loop builds the join rows of the items in order, skipping empty names |
| `Store.Database.UpsertIngredientsAndJoin` | backend/soupmate-etl/etl_soupmate_import.py:151-178 | the tables after the ingredient and join step; `ok` is false exactly when the join statement fails |
| `Store.Database.UpsertNutrition` | backend/soupmate-etl/etl_soupmate_import.py:180-199 | the recipe's single nutrition row holds the looked-up facts, overwritten in full |
| `Store.Database.InsertChunks` | backend/soupmate-etl/etl_soupmate_import.py:201-213 | appends the chunk layout's rows for the recipe |
| `Store.Database.Commit` | backend/soupmate-etl/etl_soupmate_import.py:232 | the live tables become the committed ones |
| `Store.Database.Rollback` | backend/soupmate-etl/etl_soupmate_import.py:238-239 | the live tables return to the committed ones; drawn ids are not given back |
| `Importer.ApplyEntriesKeys` | backend/soupmate-etl/etl_soupmate_import.py:227-231 | after a page is written, every record of it has a recipe row, earlier rows stay, and the sources are unchanged |
| `Importer.ApplyPagesKeys` | backend/soupmate-etl/etl_soupmate_import.py:222-234 | after the pages are written, every record of every page has a recipe row and earlier rows stay |
| `Importer.ImportRecord` | backend/soupmate-etl/etl_soupmate_import.py:228-231 | the four writes of one record, as a function of the tables before it |
| `Importer.ImportPage` | backend/soupmate-etl/etl_soupmate_import.py:227-231 | the records of a page in order, stopping at the first failed write |
| `Importer.CommitPage` | backend/soupmate-etl/etl_soupmate_import.py:227-232 | the page is committed only after all its records are written; on failure nothing is committed |
| `Importer.ImportTurn` | backend/soupmate-etl/etl_soupmate_import.py:223-234 | requests `min(page_size, total - imported)` records from offset `imported`, stops on an empty page or HTTP error, or writes and commits the page |
| `Importer.ImportPages` | backend/soupmate-etl/etl_soupmate_import.py:220-236 | `imported == offset` is the number of records in the pages so far; the loop stops on an empty page, on an error or once `imported >= total`; the committed tables are the pages' writes applied in order |
| `Importer.ImportSoups` | backend/soupmate-etl/etl_soupmate_import.py:215-242 | the whole import: the source row, then the pages; on error the open page is rolled back; on close what was not committed is discarded |

## Left out

- HTTP access (`spoonacular_get`, `fetch_soups_page`, lines 57-80): the endpoint is a function parameter from (limit, offset) to a page or an HTTP error status. The query parameters and the 402 message are not modelled.
- SQL text, psycopg2 and `execute_values`: only their effect on in-memory tables is modelled. The sequences' next values stand in for `serial` ids.
- SHA-256: the hash is a parameter `hash: string -> string`. Properties are proved about the string it is applied to. UTF-8 encoding and hex output are not modelled.
- Configuration loading (lines 17-27), `print`, `time.sleep` and `datetime.utcnow()`: side effects. The timestamp is a parameter `now`, the same for the whole run, and the database's `now()` for `updated_at` is that same value.
- `Store.RecipeUpsert`: a newly inserted recipe row has `updatedAt == None`. The insert at lines 117-122 does not set `updated_at`, so its value comes from a column default in a table schema that is not part of this model; null is assumed.
- `Text.Lower`: only ASCII `A`-`Z` are lowercased. Python's `str.lower` also folds non-ASCII letters.
- `Importer.ImportSoups`: returns the imported count or an error value instead of `None` or a raised exception. The exception's type and message are not modelled.
- `Store.Database.UpsertIngredientsAndJoin`: a null unit is treated as equal to another null unit in the join conflict key. PostgreSQL's default unique constraint treats nulls as distinct; the table schema is not part of this model.
- Failures of the recipe, ingredient, nutrition or chunk statements other than a join statement that updates the same row twice (connection loss, constraint violations) are not modelled.
- The numeric columns are `real` and the id is an `int`. JSON values of other types in those members are not modelled.
- `backend/app/main.py` and the files under `frontend/`: HTTP routing, the Supabase client, pydantic schemas and the UI are not part of this model.
