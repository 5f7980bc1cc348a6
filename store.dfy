/** The tables the importer writes, the effect of each of its writes as a function of
    the tables before it, and a connection whose writes form one transaction that is
    committed or rolled back. */
module Store {
  import opened Wrappers
  import opened Text
  import opened Signature
  import opened Chunking
  import opened Payload

  type Id = nat
  type Timestamp = int

  /** The upsert key of a recipe row: the source's id and the record's id as text. */
  datatype RecipeKey = RecipeKey(sourceId: Id, sourceRecipeId: string)

  /** A recipe row. updatedAt is None until an upsert hits an existing row. */
  datatype RecipeRow = RecipeRow(
    id: Id,
    fields: RecipeFields,
    lastFetchedAt: Timestamp,
    signature: string,
    updatedAt: Option<Timestamp>)

  /** The conflict key of a recipe_ingredient row. */
  datatype JoinKey = JoinKey(recipeId: Id, ingredientId: Id, unit: Option<string>, note: string)

  /** The columns an ingredient upsert overwrites. */
  datatype Quantities = Quantities(quantity: Option<real>, quantityGram: Option<real>)

  datatype JoinRow = JoinRow(key: JoinKey, q: Quantities)

  datatype ChunkRow = ChunkRow(recipeId: Id, chunk: Chunk)

  /** The rows of the six tables. A keyed table is a map from its unique key. */
  datatype Tables = Tables(
    sources: map<string, Id>,
    recipes: map<RecipeKey, RecipeRow>,
    ingredients: map<string, Id>,
    joins: map<JoinKey, Quantities>,
    nutrition: map<Id, NutritionFacts>,
    chunks: seq<ChunkRow>)

  /** The next value of each id sequence. Every attempted insert draws one, whether or
      not it conflicts, and a rollback does not give it back. */
  datatype Sequences = Sequences(source: nat, recipe: nat, ingredient: nat)

  datatype Db = Db(t: Tables, seqs: Sequences)

  // ---------- identity invariants ----------

  ghost predicate IdsBelow<K>(m: map<K, Id>, next: nat) {
    forall k | k in m :: m[k] < next
  }

  ghost predicate Injective<K>(m: map<K, Id>) {
    forall a, b | a in m && b in m && a != b :: m[a] != m[b]
  }

  /** Every row of the table has its own id, drawn from the sequence before next. */
  ghost predicate KeyedIds<K>(m: map<K, Id>, next: nat) {
    IdsBelow(m, next) && Injective(m)
  }

  function RecipeIds(recipes: map<RecipeKey, RecipeRow>): map<RecipeKey, Id> {
    map k | k in recipes :: recipes[k].id
  }

  ghost predicate Consistent(t: Tables, s: Sequences) {
    && KeyedIds(t.sources, s.source)
    && KeyedIds(RecipeIds(t.recipes), s.recipe)
    && KeyedIds(t.ingredients, s.ingredient)
  }

  /** Inserting a missing key with the next id keeps ids distinct and below the
      advanced sequence. */
  lemma FreshKeyedIds<K>(m: map<K, Id>, next: nat, k: K)
    requires KeyedIds(m, next)
    ensures KeyedIds(if k in m then m else m[k := next], next + 1)
  {
  }

  /** Advancing the sequences keeps a consistent state consistent. */
  lemma ConsistentLater(t: Tables, s: Sequences, s': Sequences)
    requires Consistent(t, s)
    requires s.source <= s'.source && s.recipe <= s'.recipe && s.ingredient <= s'.ingredient
    ensures Consistent(t, s')
  {
  }

  // ---------- ensure_source ----------

  /** The insert-if-absent of a source by name. */
  function WithSource(d: Db, name: string): Db {
    var t := if name in d.t.sources then d.t else d.t.(sources := d.t.sources[name := d.seqs.source]);
    Db(t, d.seqs.(source := d.seqs.source + 1))
  }

  /** After ensure_source the name has a row; an existing row keeps its id and nothing
      else changes; a second call with the same name changes no table. */
  lemma SourceUpsert(d: Db, name: string)
    ensures var d' := WithSource(d, name);
      && name in d'.t.sources
      && (name in d.t.sources ==> d'.t == d.t)
      && (name !in d.t.sources ==> d'.t.sources[name] == d.seqs.source)
      && d'.t.sources.Keys == d.t.sources.Keys + {name}
      && (forall n | n in d.t.sources :: d'.t.sources[n] == d.t.sources[n])
      && d'.t.(sources := d.t.sources) == d.t
      && WithSource(d', name).t == d'.t
  {
  }

  lemma ConsistentWithSource(d: Db, name: string)
    requires Consistent(d.t, d.seqs)
    ensures Consistent(WithSource(d, name).t, WithSource(d, name).seqs)
  {
    FreshKeyedIds(d.t.sources, d.seqs.source, name);
  }

  // ---------- upsert_recipe ----------

  /** The key of a record: `str(id)` of the record under the source's id. */
  function RecipeKeyOf(srcId: Id, r: SourceRecipe): RecipeKey {
    RecipeKey(srcId, IdText(r.id))
  }

  function TextsOf(r: SourceRecipe): seq<Option<string>> {
    MapSeq(IngredientText, IngredientsOf(r))
  }

  function ItemsOf(r: SourceRecipe): seq<IngredientItem> {
    MapSeq(ItemOf, IngredientsOf(r))
  }

  /** The signature stored with a record: of its title and its ingredient texts. */
  function RecordSignature(hash: string -> string, r: SourceRecipe): string {
    MakeSignature(hash, TitleOf(r), TextsOf(r))
  }

  /** Insert a new recipe row, or overwrite every mutable column of the row with that
      key and stamp its update time. */
  function WithRecipe(d: Db, key: RecipeKey, fields: RecipeFields, now: Timestamp, sig: string): Db {
    var row :=
      if key in d.t.recipes then
        d.t.recipes[key].(fields := fields, lastFetchedAt := now, signature := sig, updatedAt := Some(now))
      else RecipeRow(d.seqs.recipe, fields, now, sig, None);
    Db(d.t.(recipes := d.t.recipes[key := row]), d.seqs.(recipe := d.seqs.recipe + 1))
  }

  /** The upsert leaves exactly one row for the key holding the new values; an
      existing row keeps its id and gets an update time, a new row gets a fresh id; no
      other row and no other table changes. */
  lemma RecipeUpsert(d: Db, key: RecipeKey, fields: RecipeFields, now: Timestamp, sig: string)
    ensures var d' := WithRecipe(d, key, fields, now, sig); var row := d'.t.recipes[key];
      && key in d'.t.recipes
      && row.fields == fields && row.lastFetchedAt == now && row.signature == sig
      && (key in d.t.recipes ==> row.id == d.t.recipes[key].id && row.updatedAt == Some(now))
      && (key !in d.t.recipes ==> row.id == d.seqs.recipe && row.updatedAt == None)
      && d'.t.recipes.Keys == d.t.recipes.Keys + {key}
      && (forall k | k in d.t.recipes && k != key :: d'.t.recipes[k] == d.t.recipes[k])
      && d'.t.(recipes := d.t.recipes) == d.t
  {
  }

  /** Upserting the same values again changes only the update time. */
  lemma RecipeReupsert(d: Db, key: RecipeKey, fields: RecipeFields, now: Timestamp, sig: string)
    ensures var d1 := WithRecipe(d, key, fields, now, sig);
      var d2 := WithRecipe(d1, key, fields, now, sig);
      d2.t == d1.t.(recipes := d1.t.recipes[key := d1.t.recipes[key].(updatedAt := Some(now))])
  {
  }

  lemma ConsistentWithRecipe(d: Db, key: RecipeKey, fields: RecipeFields, now: Timestamp, sig: string)
    requires Consistent(d.t, d.seqs)
    ensures var d' := WithRecipe(d, key, fields, now, sig); Consistent(d'.t, d'.seqs)
  {
    var d' := WithRecipe(d, key, fields, now, sig);
    var ids := RecipeIds(d.t.recipes);
    FreshKeyedIds(ids, d.seqs.recipe, key);
    assert RecipeIds(d'.t.recipes) == if key in ids then ids else ids[key := d.seqs.recipe];
  }

  /** In a consistent state the id an upsert returns belongs to its key alone, so the
      join, nutrition and chunk rows written under it never mix with another recipe's. */
  lemma RecipeIdsDistinct(d: Db, key: RecipeKey, fields: RecipeFields, now: Timestamp, sig: string)
    requires Consistent(d.t, d.seqs)
    ensures var d' := WithRecipe(d, key, fields, now, sig);
      && d'.t.recipes[key].id < d'.seqs.recipe
      && forall k | k in d'.t.recipes && k != key :: d'.t.recipes[k].id != d'.t.recipes[key].id
  {
    var d' := WithRecipe(d, key, fields, now, sig);
    ConsistentWithRecipe(d, key, fields, now, sig);
    var ids := RecipeIds(d'.t.recipes);
    assert ids[key] == d'.t.recipes[key].id;
    forall k | k in d'.t.recipes && k != key
      ensures d'.t.recipes[k].id != d'.t.recipes[key].id
    {
      assert ids[k] == d'.t.recipes[k].id;
    }
  }

  // ---------- upsert_ingredients_and_join: the ingredient rows ----------

  /** `{norm(i["name"]) for i in items if i.get("name")}`: it can hold "" when a name
      is only whitespace. */
  function UniqueNames(items: seq<IngredientItem>): set<string> {
    set k | 0 <= k < |items| && items[k].name != "" :: Norm(items[k].name)
  }

  /** order lists every name of the set once, in some order. */
  ghost predicate Enumerates(order: seq<string>, names: set<string>) {
    (set n | n in order) == names && |order| == |names|
  }

  /** One row of the insert-if-absent: the sequence is drawn from either way. */
  function InsertName(d: Db, n: string): Db {
    var t := if n in d.t.ingredients then d.t else d.t.(ingredients := d.t.ingredients[n := d.seqs.ingredient]);
    Db(t, d.seqs.(ingredient := d.seqs.ingredient + 1))
  }

  /** The multi-row insert of names in the given order. */
  function WithIngredients(d: Db, order: seq<string>): Db
    decreases |order|
  {
    if order == [] then d else InsertName(WithIngredients(d, order[..|order| - 1]), order[|order| - 1])
  }

  /** After the insert every listed name has a row, existing rows keep their ids, new
      rows have ids drawn from the sequence during this insert, and no other table
      changes. */
  lemma {:induction false} IngredientsInserted(d: Db, order: seq<string>)
    ensures var d' := WithIngredients(d, order);
      && d'.t.ingredients.Keys == d.t.ingredients.Keys + (set n | n in order)
      && (forall n | n in d.t.ingredients :: d'.t.ingredients[n] == d.t.ingredients[n])
      && (forall n | n in d'.t.ingredients && n !in d.t.ingredients ::
            d.seqs.ingredient <= d'.t.ingredients[n] < d.seqs.ingredient + |order|)
      && d'.t.(ingredients := d.t.ingredients) == d.t
      && d'.seqs == d.seqs.(ingredient := d.seqs.ingredient + |order|)
    decreases |order|
  {
    if order != [] {
      var init := order[..|order| - 1];
      IngredientsInserted(d, init);
      assert (set n | n in order) == (set n | n in init) + {order[|order| - 1]} by {
        assert order == init + [order[|order| - 1]];
      }
    }
  }

  /** Inserting one more name after a list inserts the list, then that name. */
  lemma IngredientsSnoc(d: Db, order: seq<string>, n: string)
    ensures WithIngredients(d, order + [n]) == InsertName(WithIngredients(d, order), n)
    ensures (set m | m in order + [n]) == (set m | m in order) + {n}
  {
    assert (order + [n])[..|order|] == order;
  }

  /** Inserting names that all have rows changes no table. */
  lemma {:induction false} IngredientsPresent(d: Db, order: seq<string>)
    requires forall n | n in order :: n in d.t.ingredients
    ensures WithIngredients(d, order).t == d.t
    decreases |order|
  {
    if order != [] {
      IngredientsPresent(d, order[..|order| - 1]);
    }
  }

  lemma {:induction false} ConsistentWithIngredients(d: Db, order: seq<string>)
    requires Consistent(d.t, d.seqs)
    ensures var d' := WithIngredients(d, order); Consistent(d'.t, d'.seqs)
    decreases |order|
  {
    if order != [] {
      var d1 := WithIngredients(d, order[..|order| - 1]);
      ConsistentWithIngredients(d, order[..|order| - 1]);
      FreshKeyedIds(d1.t.ingredients, d1.seqs.ingredient, order[|order| - 1]);
    }
  }

  // ---------- upsert_ingredients_and_join: the join rows ----------

  /** The ingredient-table key of an item: its normalized name. */
  function NameKey(it: IngredientItem): string {
    Norm(it.name)
  }

  /** Every item's key is empty or has an ingredient id. The join-row functions take
      the key function as a parameter; the importer passes NameKey. */
  ghost predicate Resolvable(key: IngredientItem -> string, ids: map<string, Id>, items: seq<IngredientItem>) {
    forall k | 0 <= k < |items| :: key(items[k]) == "" || key(items[k]) in ids
  }

  /** The join row of one item, none when its key is empty. */
  function JoinRowsOf(key: IngredientItem -> string, recipeId: Id, ids: map<string, Id>, it: IngredientItem): seq<JoinRow>
    requires key(it) == "" || key(it) in ids
  {
    var n := key(it);
    if n == "" then []
    else [JoinRow(JoinKey(recipeId, ids[n], it.unit, it.note), Quantities(it.amount, it.grams))]
  }

  /** The join rows of the items, in item order. */
  function JoinRowsFor(key: IngredientItem -> string, recipeId: Id, ids: map<string, Id>, items: seq<IngredientItem>): seq<JoinRow>
    requires Resolvable(key, ids, items)
    decreases |items|
  {
    if items == [] then []
    else
      ResolvablePrefix(key, ids, items, |items| - 1);
      JoinRowsFor(key, recipeId, ids, items[..|items| - 1])
      + JoinRowsOf(key, recipeId, ids, items[|items| - 1])
  }

  /** There are at most as many join rows as items. */
  lemma {:induction false} JoinRowsLength(key: IngredientItem -> string, recipeId: Id, ids: map<string, Id>,
                                          items: seq<IngredientItem>)
    requires Resolvable(key, ids, items)
    ensures |JoinRowsFor(key, recipeId, ids, items)| <= |items|
    decreases |items|
  {
    if items != [] {
      ResolvablePrefix(key, ids, items, |items| - 1);
      JoinRowsLength(key, recipeId, ids, items[..|items| - 1]);
    }
  }

  /** Every join row is the row of an item with a non-empty key: that key's id, the
      item's unit, note and quantities. */
  lemma {:induction false} JoinRowsOrigin(key: IngredientItem -> string, recipeId: Id, ids: map<string, Id>,
                                          items: seq<IngredientItem>)
    requires Resolvable(key, ids, items)
    ensures forall row | row in JoinRowsFor(key, recipeId, ids, items) ::
      exists it | it in items && key(it) != "" :: [row] == JoinRowsOf(key, recipeId, ids, it)
    decreases |items|
  {
    if items != [] {
      var init := items[..|items| - 1];
      var last := items[|items| - 1];
      ResolvablePrefix(key, ids, items, |items| - 1);
      JoinRowsOrigin(key, recipeId, ids, init);
      var front := JoinRowsFor(key, recipeId, ids, init);
      var rows := JoinRowsFor(key, recipeId, ids, items);
      assert rows == front + JoinRowsOf(key, recipeId, ids, last);
      assert items == init + [last];
      forall row | row in rows
        ensures exists it | it in items && key(it) != "" :: [row] == JoinRowsOf(key, recipeId, ids, it)
      {
        if row in front {
          var it :| it in init && key(it) != "" && [row] == JoinRowsOf(key, recipeId, ids, it);
          assert it in items;
        } else {
          assert last in items && key(last) != "" && [row] == JoinRowsOf(key, recipeId, ids, last);
        }
      }
    }
  }

  /** Every item with a non-empty key has its row among the join rows. */
  lemma {:induction false} JoinRowsCover(key: IngredientItem -> string, recipeId: Id, ids: map<string, Id>,
                                         items: seq<IngredientItem>)
    requires Resolvable(key, ids, items)
    ensures forall it | it in items && key(it) != "" ::
      JoinRowsOf(key, recipeId, ids, it)[0] in JoinRowsFor(key, recipeId, ids, items)
    decreases |items|
  {
    if items != [] {
      var init := items[..|items| - 1];
      var last := items[|items| - 1];
      ResolvablePrefix(key, ids, items, |items| - 1);
      JoinRowsCover(key, recipeId, ids, init);
      assert JoinRowsFor(key, recipeId, ids, items)
        == JoinRowsFor(key, recipeId, ids, init) + JoinRowsOf(key, recipeId, ids, last);
      assert items == init + [last];
    }
  }

  lemma ResolvablePrefix(key: IngredientItem -> string, ids: map<string, Id>, items: seq<IngredientItem>, n: nat)
    requires Resolvable(key, ids, items) && n <= |items|
    ensures Resolvable(key, ids, items[..n])
  {
    forall k | 0 <= k < n ensures key(items[..n][k]) == "" || key(items[..n][k]) in ids {
      assert items[..n][k] == items[k];
    }
  }

  /** Items whose keys are all empty give no join rows. */
  lemma {:induction false} NoKeysNoRows(key: IngredientItem -> string, recipeId: Id, ids: map<string, Id>,
                                        items: seq<IngredientItem>)
    requires forall k | 0 <= k < |items| :: key(items[k]) == ""
    ensures Resolvable(key, ids, items) && JoinRowsFor(key, recipeId, ids, items) == []
    decreases |items|
  {
    if items != [] {
      NoKeysNoRows(key, recipeId, ids, items[..|items| - 1]);
    }
  }

  /** Once every unique name has a row, each item's normalized name is resolvable. */
  lemma NamesResolvable(ids: map<string, Id>, items: seq<IngredientItem>)
    requires UniqueNames(items) <= ids.Keys
    ensures Resolvable(NameKey, ids, items)
  {
    forall k | 0 <= k < |items| ensures NameKey(items[k]) == "" || NameKey(items[k]) in ids {
      if items[k].name == "" {
        NormBlank("");
      } else {
        assert Norm(items[k].name) in UniqueNames(items);
      }
    }
  }

  lemma NameInUnique(items: seq<IngredientItem>, k: int)
    requires 0 <= k < |items| && items[k].name != ""
    ensures Norm(items[k].name) in UniqueNames(items)
  {
  }

  /** With no unique names, every item's normalized name is empty. */
  lemma NoNamesNoKeys(items: seq<IngredientItem>)
    requires UniqueNames(items) == {}
    ensures forall k | 0 <= k < |items| :: NameKey(items[k]) == ""
  {
    forall k | 0 <= k < |items| ensures NameKey(items[k]) == "" {
      if items[k].name != "" {
        NameInUnique(items, k);
        assert false;
      }
      NormBlank("");
    }
  }

  /** An execute_values statement carries at most this many rows. */
  const StatementRows: nat := 100

  predicate HasDuplicateKeys(rows: seq<JoinRow>) {
    exists i, j | 0 <= i < j < |rows| :: rows[i].key == rows[j].key
  }

  /** The join upsert fails when one of its statements would update the same row
      twice, that is when a group of StatementRows consecutive rows repeats a key. */
  predicate JoinConflict(rows: seq<JoinRow>)
    decreases |rows|
  {
    if |rows| <= StatementRows then HasDuplicateKeys(rows)
    else HasDuplicateKeys(rows[..StatementRows]) || JoinConflict(rows[StatementRows..])
  }

  /** Rows with distinct keys never conflict; up to StatementRows rows conflict exactly
      when a key repeats. */
  lemma {:induction false} ConflictNeedsDuplicates(rows: seq<JoinRow>)
    ensures JoinConflict(rows) ==> HasDuplicateKeys(rows)
    ensures |rows| <= StatementRows ==> (JoinConflict(rows) <==> HasDuplicateKeys(rows))
    decreases |rows|
  {
    if |rows| > StatementRows {
      ConflictNeedsDuplicates(rows[StatementRows..]);
      if HasDuplicateKeys(rows[..StatementRows]) {
        var i, j :| 0 <= i < j < StatementRows && rows[..StatementRows][i].key == rows[..StatementRows][j].key;
        assert rows[i].key == rows[j].key;
      } else if JoinConflict(rows[StatementRows..]) {
        var s := rows[StatementRows..];
        var i, j :| 0 <= i < j < |s| && s[i].key == s[j].key;
        assert rows[StatementRows + i].key == rows[StatementRows + j].key;
      }
    }
  }

  function JoinKeyOf(row: JoinRow): JoinKey {
    row.key
  }

  /** The join upsert: each row in turn inserts its key or overwrites the quantities
      stored under it. */
  function UpsertJoins(m: map<JoinKey, Quantities>, rows: seq<JoinRow>): map<JoinKey, Quantities>
    decreases |rows|
  {
    if rows == [] then m
    else UpsertJoins(m, rows[..|rows| - 1])[rows[|rows| - 1].key := rows[|rows| - 1].q]
  }

  /** A key is stored after the upsert exactly when it was before or a row has it, and
      it then holds the quantities of the last row with that key, or else its old ones. */
  lemma {:induction false} UpsertJoinsLastWins(m: map<JoinKey, Quantities>, rows: seq<JoinRow>, k: JoinKey)
    ensures var r := UpsertJoins(m, rows); var last := LastWithKey(JoinKeyOf, rows, k);
      && (k in r <==> k in m || last.Some?)
      && (last.Some? ==> r[k] == rows[last.value].q)
      && (last.None? && k in m ==> r[k] == m[k])
    decreases |rows|
  {
    if rows != [] {
      UpsertJoinsLastWins(m, rows[..|rows| - 1], k);
    }
  }

  /** Upserting the same rows twice leaves the table as upserting them once. */
  lemma UpsertJoinsIdempotent(m: map<JoinKey, Quantities>, rows: seq<JoinRow>)
    ensures UpsertJoins(UpsertJoins(m, rows), rows) == UpsertJoins(m, rows)
  {
    var once := UpsertJoins(m, rows);
    var twice := UpsertJoins(once, rows);
    forall k | true
      ensures k in twice <==> k in once
      ensures k in once ==> twice[k] == once[k]
    {
      UpsertJoinsLastWins(m, rows, k);
      UpsertJoinsLastWins(once, rows, k);
    }
  }

  function WithJoins(d: Db, rows: seq<JoinRow>): Db {
    d.(t := d.t.(joins := UpsertJoins(d.t.joins, rows)))
  }

  /** upsert_ingredients_and_join as a whole: the ingredient rows in the given order,
      then the join rows resolved against the ingredient table; None when the join
      upsert fails. */
  function IngredientsAndJoins(d: Db, recipeId: Id, items: seq<IngredientItem>, order: seq<string>): Option<Db>
    requires Enumerates(order, UniqueNames(items))
  {
    var d1 := WithIngredients(d, order);
    IngredientsInserted(d, order);
    NamesResolvable(d1.t.ingredients, items);
    var rows := JoinRowsFor(NameKey, recipeId, d1.t.ingredients, items);
    if JoinConflict(rows) then None else Some(WithJoins(d1, rows))
  }

  // ---------- upsert_nutrition and insert_chunks ----------

  /** One nutrition row per recipe: inserted, or overwritten in full. */
  function WithNutrition(d: Db, recipeId: Id, facts: NutritionFacts): Db {
    d.(t := d.t.(nutrition := d.t.nutrition[recipeId := facts]))
  }

  function ChunkRows(recipeId: Id, layout: seq<Chunk>): (rows: seq<ChunkRow>)
    ensures |rows| == |layout|
    ensures forall i | 0 <= i < |layout| :: rows[i] == ChunkRow(recipeId, layout[i])
  {
    seq(|layout|, i requires 0 <= i < |layout| => ChunkRow(recipeId, layout[i]))
  }

  /** Chunks are only ever appended: rows of earlier imports stay. */
  function WithChunks(d: Db, recipeId: Id, layout: seq<Chunk>): Db {
    d.(t := d.t.(chunks := d.t.chunks + ChunkRows(recipeId, layout)))
  }

  /** insert_chunks appends one row per chunk of the layout for the recipe (two more
      than the instruction parts, which ChunkLayout takes from split_instructions), the
      title first and the ingredients second, and deletes none. */
  lemma ChunksAppended(d: Db, recipeId: Id, title: string, lines: seq<Option<string>>, parts: seq<string>)
    ensures var c := WithChunks(d, recipeId, Layout(title, lines, parts)).t.chunks;
      var n := |d.t.chunks|;
      && |c| == n + 2 + |parts|
      && c[..n] == d.t.chunks
      && (forall i | n <= i < |c| :: c[i].recipeId == recipeId)
      && c[n].chunk == Chunk(TitleChunk, title, WordCount(title))
      && c[n + 1].chunk.kind == IngredientsChunk
      && (forall k | 0 <= k < |parts| :: c[n + 2 + k].chunk == Chunk(InstructionsChunk, parts[k], WordCount(parts[k])))
  {
    var layout := Layout(title, lines, parts);
    var block := IngredientsBlock(lines);
    var instr := MapSeq(InstructionChunk, parts);
    assert layout == [Chunk(TitleChunk, title, WordCount(title)), Chunk(IngredientsChunk, block, WordCount(block))] + instr;
    var rows := ChunkRows(recipeId, layout);
    var c := d.t.chunks + rows;
    var n := |d.t.chunks|;
    assert c[..n] == d.t.chunks;
    forall i | n <= i < |c| ensures c[i].recipeId == recipeId {
      assert c[i] == rows[i - n];
    }
    assert c[n] == rows[0] && c[n + 1] == rows[1];
    forall k | 0 <= k < |parts|
      ensures c[n + 2 + k].chunk == Chunk(InstructionsChunk, parts[k], WordCount(parts[k]))
    {
      assert c[n + 2 + k] == rows[2 + k];
      assert layout[2 + k] == instr[k] == InstructionChunk(parts[k]);
    }
  }

  // ---------- one record ----------

  /** What one record writes besides its key: the recipe columns, the signature, the
      ingredient items, the nutrition facts and the chunk layout. */
  datatype Writes = Writes(
    fields: RecipeFields,
    signature: string,
    items: seq<IngredientItem>,
    facts: NutritionFacts,
    layout: seq<Chunk>)

  function WritesOf(hash: string -> string, r: SourceRecipe): Writes {
    Writes(FieldsOf(r), RecordSignature(hash, r), ItemsOf(r), FactsOf(r),
           ChunkLayout(TitleOf(r), TextsOf(r), FieldsOf(r).instructionsPlain))
  }

  /** The writes under one key, in the importer's order: recipe, ingredients and
      joins, nutrition, chunks. None when the join upsert fails. */
  function ApplyWrites(d: Db, key: RecipeKey, w: Writes, now: Timestamp, order: seq<string>): Option<Db>
    requires Enumerates(order, UniqueNames(w.items))
  {
    var d1 := WithRecipe(d, key, w.fields, now, w.signature);
    var rid := d1.t.recipes[key].id;
    match IngredientsAndJoins(d1, rid, w.items, order)
    case None => None
    case Some(d2) => Some(WithChunks(WithNutrition(d2, rid, w.facts), rid, w.layout))
  }

  /** The writes for one record of the source with id srcId. */
  function ApplyRecord(d: Db, srcId: Id, r: SourceRecipe, hash: string -> string, now: Timestamp,
                       order: seq<string>): Option<Db>
    requires Enumerates(order, UniqueNames(ItemsOf(r)))
  {
    ApplyWrites(d, RecipeKeyOf(srcId, r), WritesOf(hash, r), now, order)
  }

  /** Applying the same writes a second time succeeds and, whatever order the
      ingredient names are inserted in, leaves one recipe row for the key with the same
      id and values and a fresh update time, the same sources, ingredients, join rows
      and nutrition, and appends the chunks again. */
  lemma ReapplyWrites(d: Db, key: RecipeKey, w: Writes, now: Timestamp, order1: seq<string>, order2: seq<string>)
    requires Enumerates(order1, UniqueNames(w.items)) && Enumerates(order2, UniqueNames(w.items))
    requires ApplyWrites(d, key, w, now, order1).Some?
    ensures var d1 := ApplyWrites(d, key, w, now, order1).value;
      var again := ApplyWrites(d1, key, w, now, order2);
      && key in d1.t.recipes
      && again.Some?
      && again.value.t == d1.t.(
           recipes := d1.t.recipes[key := d1.t.recipes[key].(updatedAt := Some(now))],
           chunks := d1.t.chunks + ChunkRows(d1.t.recipes[key].id, w.layout))
  {
    var a1 := WithRecipe(d, key, w.fields, now, w.signature);
    var rid := a1.t.recipes[key].id;
    var a2 := IngredientsAndJoins(a1, rid, w.items, order1).value;
    var d1 := WithChunks(WithNutrition(a2, rid, w.facts), rid, w.layout);
    assert ApplyWrites(d, key, w, now, order1).value == d1;
    IngredientsAndJoinsKeepRecipes(a1, rid, w.items, order1);
    var b1 := WithRecipe(d1, key, w.fields, now, w.signature);
    assert b1.t.recipes[key].id == rid;
    assert b1.t == d1.t.(recipes := d1.t.recipes[key := d1.t.recipes[key].(updatedAt := Some(now))]);
    JoinsStable(a1, b1, rid, w.items, order1, order2);
    var b2 := IngredientsAndJoins(b1, rid, w.items, order2).value;
    assert ApplyWrites(d1, key, w, now, order2) == Some(WithChunks(WithNutrition(b2, rid, w.facts), rid, w.layout));
    assert d1.t.nutrition[rid := w.facts] == d1.t.nutrition;
  }

  /** The ingredient and join step leaves the recipe and nutrition tables alone. */
  lemma IngredientsAndJoinsKeepRecipes(d: Db, recipeId: Id, items: seq<IngredientItem>, order: seq<string>)
    requires Enumerates(order, UniqueNames(items))
    requires IngredientsAndJoins(d, recipeId, items, order).Some?
    ensures var d' := IngredientsAndJoins(d, recipeId, items, order).value;
      d'.t.recipes == d.t.recipes && d'.t.nutrition == d.t.nutrition && d'.t.chunks == d.t.chunks
  {
    IngredientsInserted(d, order);
  }

  /** After the ingredient and join step has succeeded once, it changes no table of a
      state holding the same ingredient and join rows, whatever order the names come in. */
  lemma JoinsStable(d: Db, e: Db, recipeId: Id, items: seq<IngredientItem>, order1: seq<string>, order2: seq<string>)
    requires Enumerates(order1, UniqueNames(items)) && Enumerates(order2, UniqueNames(items))
    requires IngredientsAndJoins(d, recipeId, items, order1).Some?
    requires var d2 := IngredientsAndJoins(d, recipeId, items, order1).value;
      e.t.ingredients == d2.t.ingredients && e.t.joins == d2.t.joins
    ensures IngredientsAndJoins(e, recipeId, items, order2).Some?
    ensures IngredientsAndJoins(e, recipeId, items, order2).value.t == e.t
  {
    var a := WithIngredients(d, order1);
    IngredientsInserted(d, order1);
    NamesResolvable(a.t.ingredients, items);
    var rows := JoinRowsFor(NameKey, recipeId, a.t.ingredients, items);
    assert e.t.joins == UpsertJoins(a.t.joins, rows);
    IngredientsPresent(e, order2);
    var b := WithIngredients(e, order2);
    assert b.t == e.t;
    UpsertJoinsIdempotent(a.t.joins, rows);
  }

  /** Importing the same record twice leaves one recipe row with the same id and
      values, the same ingredient, join and nutrition rows, and its chunks twice. */
  lemma ReimportSameRecord(d: Db, srcId: Id, r: SourceRecipe, hash: string -> string, now: Timestamp,
                           order1: seq<string>, order2: seq<string>)
    requires Enumerates(order1, UniqueNames(ItemsOf(r))) && Enumerates(order2, UniqueNames(ItemsOf(r)))
    requires ApplyRecord(d, srcId, r, hash, now, order1).Some?
    ensures var d1 := ApplyRecord(d, srcId, r, hash, now, order1).value;
      var again := ApplyRecord(d1, srcId, r, hash, now, order2);
      var key := RecipeKeyOf(srcId, r);
      && key in d1.t.recipes
      && again.Some?
      && again.value.t == d1.t.(
           recipes := d1.t.recipes[key := d1.t.recipes[key].(updatedAt := Some(now))],
           chunks := d1.t.chunks + ChunkRows(d1.t.recipes[key].id,
                       ChunkLayout(TitleOf(r), TextsOf(r), FieldsOf(r).instructionsPlain)))
  {
    ReapplyWrites(d, RecipeKeyOf(srcId, r), WritesOf(hash, r), now, order1, order2);
  }

  // ---------- the connection ----------

  /** A connection with autocommit off: the live tables hold this transaction's
      writes, committed holds the tables as of the last commit. */
  class Database {
    var sources: map<string, Id>
    var recipes: map<RecipeKey, RecipeRow>
    var ingredients: map<string, Id>
    var joins: map<JoinKey, Quantities>
    var nutrition: map<Id, NutritionFacts>
    var chunks: seq<ChunkRow>
    var nextSourceId: nat
    var nextRecipeId: nat
    var nextIngredientId: nat
    var committed: Tables

    function Live(): Tables
      reads this
    {
      Tables(sources, recipes, ingredients, joins, nutrition, chunks)
    }

    function Seqs(): Sequences
      reads this
    {
      Sequences(nextSourceId, nextRecipeId, nextIngredientId)
    }

    function State(): Db
      reads this
    {
      Db(Live(), Seqs())
    }

    /** Both the live and the committed tables give every row its own id. */
    ghost predicate Valid()
      reads this
    {
      Consistent(Live(), Seqs()) && Consistent(committed, Seqs())
    }

    /** A fresh connection to a database holding the given tables. */
    constructor (initial: Tables, seqs: Sequences)
      requires Consistent(initial, seqs)
      ensures Valid() && State() == Db(initial, seqs) && committed == initial
    {
      sources, recipes, ingredients := initial.sources, initial.recipes, initial.ingredients;
      joins, nutrition, chunks := initial.joins, initial.nutrition, initial.chunks;
      nextSourceId, nextRecipeId, nextIngredientId := seqs.source, seqs.recipe, seqs.ingredient;
      committed := initial;
    }

    /** ensure_source: the id of the source row with that name, created if absent. */
    method EnsureSource(name: string) returns (id: Id)
      requires Valid()
      modifies this
      ensures Valid() && committed == old(committed)
      ensures State() == WithSource(old(State()), name)
      ensures name in sources && id == sources[name]
    {
      ConsistentWithSource(State(), name);
      ConsistentLater(committed, Seqs(), Seqs().(source := nextSourceId + 1));
      if name !in sources {
        sources := sources[name := nextSourceId];
      }
      nextSourceId := nextSourceId + 1;
      id := sources[name];
    }

    /** upsert_recipe: write the record's row and hand back its id, its ingredient items
        and texts, its title and its plain instructions. */
    method UpsertRecipe(srcId: Id, r: SourceRecipe, hash: string -> string, now: Timestamp)
      returns (recipeId: Id, items: seq<IngredientItem>, texts: seq<Option<string>>,
               title: string, plain: Option<string>)
      requires Valid()
      modifies this
      ensures Valid() && committed == old(committed)
      ensures State() == WithRecipe(old(State()), RecipeKeyOf(srcId, r), FieldsOf(r), now, RecordSignature(hash, r))
      ensures RecipeKeyOf(srcId, r) in recipes && recipeId == recipes[RecipeKeyOf(srcId, r)].id
      ensures forall k | k in recipes && k != RecipeKeyOf(srcId, r) :: recipes[k].id != recipeId
      ensures items == ItemsOf(r) && texts == TextsOf(r)
      ensures title == TitleOf(r) && plain == FieldsOf(r).instructionsPlain
    {
      var fields := FieldsOf(r);
      title, plain := fields.title, fields.instructionsPlain;
      texts, items := CollectIngredients(IngredientsOf(r));
      var sig := MakeSignature(hash, title, texts);
      ghost var d := State();
      recipeId := WriteRecipe(RecipeKey(srcId, IdText(r.id)), fields, now, sig);
      RecipeIdsDistinct(d, RecipeKeyOf(srcId, r), fields, now, sig);
    }

    /** The recipe upsert statement, returning the row's id. */
    method WriteRecipe(key: RecipeKey, fields: RecipeFields, now: Timestamp, sig: string) returns (id: Id)
      requires Valid()
      modifies this
      ensures Valid() && committed == old(committed)
      ensures State() == WithRecipe(old(State()), key, fields, now, sig)
      ensures key in recipes && id == recipes[key].id
    {
      ConsistentWithRecipe(State(), key, fields, now, sig);
      ConsistentLater(committed, Seqs(), Seqs().(recipe := nextRecipeId + 1));
      var row :=
        if key in recipes then
          recipes[key].(fields := fields, lastFetchedAt := now, signature := sig, updatedAt := Some(now))
        else RecipeRow(nextRecipeId, fields, now, sig, None);
      recipes := recipes[key := row];
      nextRecipeId := nextRecipeId + 1;
      id := row.id;
    }

    /** The multi-row ingredient insert, one name of the set at a time in whatever
        order the set yields them. */
    method InsertIngredientNames(names: set<string>) returns (ghost order: seq<string>)
      requires Valid()
      modifies this
      ensures Valid() && committed == old(committed)
      ensures Enumerates(order, names)
      ensures State() == WithIngredients(old(State()), order)
    {
      order := [];
      var remaining := names;
      while remaining != {}
        invariant Valid() && committed == old(committed)
        invariant (set n | n in order) + remaining == names && (set n | n in order) !! remaining
        invariant |order| + |remaining| == |names|
        invariant State() == WithIngredients(old(State()), order)
        decreases |remaining|
      {
        var n :| n in remaining;
        InsertIngredient(n);
        IngredientsSnoc(old(State()), order, n);
        order := order + [n];
        remaining := remaining - {n};
      }
    }

    /** One row of the ingredient insert. */
    method InsertIngredient(n: string)
      requires Valid()
      modifies this
      ensures Valid() && committed == old(committed)
      ensures State() == InsertName(old(State()), n)
    {
      ConsistentLater(committed, Seqs(), Seqs().(ingredient := nextIngredientId + 1));
      FreshKeyedIds(ingredients, nextIngredientId, n);
      if n !in ingredients {
        ingredients := ingredients[n := nextIngredientId];
      }
      nextIngredientId := nextIngredientId + 1;
    }

    /** The loop of upsert_ingredients_and_join that builds the join rows. */
    method BuildJoinRows(recipeId: Id, items: seq<IngredientItem>) returns (rows: seq<JoinRow>)
      requires Resolvable(NameKey, ingredients, items)
      ensures rows == JoinRowsFor(NameKey, recipeId, ingredients, items)
    {
      rows := [];
      var i := 0;
      while i < |items|
        invariant 0 <= i <= |items|
        invariant Resolvable(NameKey, ingredients, items[..i])
        invariant rows == JoinRowsFor(NameKey, recipeId, ingredients, items[..i])
      {
        var it := items[i];
        var n := NameKey(it);
        assert items[..i + 1][..i] == items[..i] && items[..i + 1][i] == it;
        ResolvablePrefix(NameKey, ingredients, items, i + 1);
        if n != "" {
          rows := rows + [JoinRow(JoinKey(recipeId, ingredients[n], it.unit, it.note), Quantities(it.amount, it.grams))];
        }
        i := i + 1;
      }
      assert items[..i] == items;
    }

    /** upsert_ingredients_and_join: ok is false exactly when the join upsert fails, in
        which case the transaction has to be rolled back. */
    method UpsertIngredientsAndJoin(recipeId: Id, items: seq<IngredientItem>)
      returns (ok: bool, ghost order: seq<string>)
      requires Valid()
      modifies this
      ensures Valid() && committed == old(committed)
      ensures Enumerates(order, UniqueNames(items))
      ensures ok <==> IngredientsAndJoins(old(State()), recipeId, items, order).Some?
      ensures ok ==> State() == IngredientsAndJoins(old(State()), recipeId, items, order).value
    {
      var names := UniqueNames(items);
      if names == {} {
        ok, order := true, [];
        NoNamesNoKeys(items);
        NoKeysNoRows(NameKey, recipeId, ingredients, items);
        return;
      }
      ghost var d0 := State();
      order := InsertIngredientNames(names);
      IngredientsInserted(d0, order);
      NamesResolvable(ingredients, items);
      var rows := BuildJoinRows(recipeId, items);
      if rows == [] {
        ok := true;
        return;
      }
      ok := !JoinConflict(rows);
      if ok {
        WriteJoins(rows);
      }
    }

    /** The join upsert statements, when none of them conflicts. */
    method WriteJoins(rows: seq<JoinRow>)
      requires Valid()
      modifies this
      ensures Valid() && committed == old(committed)
      ensures State() == WithJoins(old(State()), rows)
    {
      joins := UpsertJoins(joins, rows);
    }

    /** upsert_nutrition: the recipe's one nutrition row holds the record's facts. */
    method UpsertNutrition(recipeId: Id, r: SourceRecipe)
      requires Valid()
      modifies this
      ensures Valid() && committed == old(committed)
      ensures State() == WithNutrition(old(State()), recipeId, FactsOf(r))
    {
      nutrition := nutrition[recipeId := FactsOf(r)];
    }

    /** insert_chunks: append the record's chunk rows. */
    method InsertChunks(recipeId: Id, title: string, texts: seq<Option<string>>, plain: Option<string>)
      requires Valid()
      modifies this
      ensures Valid() && committed == old(committed)
      ensures State() == WithChunks(old(State()), recipeId, ChunkLayout(title, texts, plain))
    {
      var layout := BuildChunks(title, texts, plain);
      chunks := chunks + ChunkRows(recipeId, layout);
    }

    /** The connection's commit: the transaction's writes become the committed tables. */
    method Commit()
      requires Valid()
      modifies this
      ensures Valid() && State() == old(State()) && committed == Live()
    {
      committed := Live();
    }

    /** The connection's rollback: the live tables return to the committed ones; the
        id sequences keep what was drawn. */
    method Rollback()
      requires Valid()
      modifies this
      ensures Valid() && committed == old(committed)
      ensures Live() == committed && Seqs() == old(Seqs())
    {
      sources, recipes, ingredients := committed.sources, committed.recipes, committed.ingredients;
      joins, nutrition, chunks := committed.joins, committed.nutrition, committed.chunks;
      assert Live() == committed;
    }
  }
}
