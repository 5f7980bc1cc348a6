/** The chunks a recipe is cut into for retrieval: the ingredient bullet block
    (chunk_ingredients), the greedy packing of instruction paragraphs
    (split_instructions) and the ordered chunk list that insert_chunks writes. */
module Chunking {
  import opened Wrappers
  import opened Text

  /** split_instructions' default bound on a chunk's length, in characters. */
  const MaxChunkLen: nat := 1000

  function Min(a: int, b: int): int {
    if a <= b then a else b
  }

  // ---------- the ingredients block ----------

  /** How an f-string renders a possibly-None ingredient line. */
  function Render(line: Option<string>): string {
    match line
    case None => "None"
    case Some(s) => s
  }

  function Bullet(line: Option<string>): string {
    "- " + Render(line)
  }

  /** chunk_ingredients: one "- " bullet per line, joined by newlines; blank lines are
      kept as bare bullets. */
  function IngredientsBlock(lines: seq<Option<string>>): string {
    JoinWith("\n", MapSeq(Bullet, lines))
  }

  /** No lines give the empty block; otherwise, when no line holds a newline, the block
      splits on newlines into exactly one bullet per line, in order. */
  lemma IngredientsBlockLines(lines: seq<Option<string>>)
    requires forall i | 0 <= i < |lines| :: '\n' !in Render(lines[i])
    ensures lines == [] ==> IngredientsBlock(lines) == ""
    ensures lines != [] ==> SplitOn('\n', IngredientsBlock(lines)) == MapSeq(Bullet, lines)
  {
    if lines != [] {
      var bs := MapSeq(Bullet, lines);
      forall k | 0 <= k < |bs|
        ensures '\n' !in bs[k]
      {
        assert bs[k] == "- " + Render(lines[k]);
      }
      SplitJoin('\n', bs);
    }
  }

  /** len(s.split()) */
  function WordCount(s: string): nat {
    |Words(s)|
  }

  /** The total number of words in the rendered lines. */
  function RenderedWords(lines: seq<Option<string>>): nat {
    if lines == [] then 0 else WordCount(Render(lines[0])) + RenderedWords(lines[1..])
  }

  /** Each bullet contributes its "-" and the words of its line: the block's word
      count is the number of lines plus the words in them. */
  lemma {:induction false} IngredientsTokenCount(lines: seq<Option<string>>)
    ensures WordCount(IngredientsBlock(lines)) == |lines| + RenderedWords(lines)
    decreases |lines|
  {
    if lines != [] {
      var b := Bullet(lines[0]);
      BulletWords(lines[0]);
      IngredientsTokenCount(lines[1..]);
      assert MapSeq(Bullet, lines) == [b] + MapSeq(Bullet, lines[1..]);
      if |lines| > 1 {
        JoinCons("\n", b, MapSeq(Bullet, lines[1..]));
        assert b + "\n" + IngredientsBlock(lines[1..]) == b + ['\n'] + IngredientsBlock(lines[1..]);
        WordsAroundSpace(b, '\n', IngredientsBlock(lines[1..]));
      } else {
        assert IngredientsBlock(lines) == b;
      }
    }
  }

  lemma BulletWords(line: Option<string>)
    ensures Words(Bullet(line)) == ["-"] + Words(Render(line))
  {
    assert Bullet(line) == "-" + [' '] + Render(line);
    WordsAroundSpace("-", ' ', Render(line));
    assert WordLen("-") == 1;
    assert "-"[..1] == "-" && "-"[1..] == [];
    assert Words("-") == ["-"];
  }

  // ---------- paragraphs ----------

  /** s.replace("\r", "") */
  function RemoveCR(s: string): (r: string)
    decreases |s|
  {
    if s == [] then [] else (if s[0] == '\r' then [] else [s[0]]) + RemoveCR(s[1..])
  }

  /** [p.strip() for p in lines if p.strip()] */
  function StripNonBlank(lines: seq<string>): (ps: seq<string>)
    ensures |ps| <= |lines|
    ensures forall k | 0 <= k < |ps| :: ps[k] != ""
    decreases |lines|
  {
    if lines == [] then []
    else (if Strip(lines[0]) != "" then [Strip(lines[0])] else []) + StripNonBlank(lines[1..])
  }

  /** The non-blank lines of the instructions, stripped, in order. */
  function Paragraphs(instr: string): seq<string> {
    StripNonBlank(SplitOn('\n', RemoveCR(instr)))
  }

  /** Every paragraph is non-empty and holds no newline. */
  lemma ParagraphsShape(instr: string)
    ensures forall k | 0 <= k < |Paragraphs(instr)| :: Paragraphs(instr)[k] != ""
    ensures forall k | 0 <= k < |Paragraphs(instr)| :: '\n' !in Paragraphs(instr)[k]
  {
    SplitOnNoSep('\n', RemoveCR(instr));
    StripNonBlankNoSep(SplitOn('\n', RemoveCR(instr)));
  }

  lemma {:induction false} StripNonBlankNoSep(lines: seq<string>)
    requires forall k | 0 <= k < |lines| :: '\n' !in lines[k]
    ensures forall k | 0 <= k < |StripNonBlank(lines)| :: '\n' !in StripNonBlank(lines)[k]
    decreases |lines|
  {
    if lines != [] {
      StripNonBlankNoSep(lines[1..]);
      StripChars(lines[0]);
    }
  }

  lemma {:induction false} RemoveCRBlank(s: string)
    requires forall i | 0 <= i < |s| :: IsSpace(s[i])
    ensures forall i | 0 <= i < |RemoveCR(s)| :: IsSpace(RemoveCR(s)[i])
    decreases |s|
  {
    if s != [] {
      RemoveCRBlank(s[1..]);
    }
  }

  lemma {:induction false} SplitOnBlank(sep: char, s: string)
    requires forall i | 0 <= i < |s| :: IsSpace(s[i])
    ensures forall k | 0 <= k < |SplitOn(sep, s)| :: Strip(SplitOn(sep, s)[k]) == ""
    decreases |s|
  {
    var n := IndexOf(sep, s);
    assert forall i | 0 <= i < |s[..n]| :: IsSpace(s[..n][i]);
    if n < |s| {
      SplitOnBlank(sep, s[n + 1..]);
    }
  }

  lemma {:induction false} StripNonBlankAllBlank(lines: seq<string>)
    requires forall k | 0 <= k < |lines| :: Strip(lines[k]) == ""
    ensures StripNonBlank(lines) == []
    decreases |lines|
  {
    if lines != [] {
      StripNonBlankAllBlank(lines[1..]);
    }
  }

  /** Instructions made of whitespace only have no paragraphs. */
  lemma BlankHasNoParagraphs(instr: string)
    requires forall i | 0 <= i < |instr| :: IsSpace(instr[i])
    ensures Paragraphs(instr) == []
  {
    RemoveCRBlank(instr);
    SplitOnBlank('\n', RemoveCR(instr));
    StripNonBlankAllBlank(SplitOn('\n', RemoveCR(instr)));
  }

  // ---------- greedy packing ----------

  /** The loop state of split_instructions: the finished chunks and the one being filled. */
  datatype Packing = Packing(chunks: seq<string>, cur: string)

  /** One turn of the loop on paragraph p: p (after a newline unless cur is empty) is
      added to cur while the result stays within maxLen; otherwise cur is closed and p
      starts the next chunk. */
  function Step(st: Packing, p: string, maxLen: nat): Packing {
    var add := (if st.cur != "" then "\n" else "") + p;
    if |st.cur| + |add| > maxLen then Packing(st.chunks + [st.cur], p)
    else Packing(st.chunks, st.cur + add)
  }

  /** The loop state after the paragraphs ps. */
  function Pack(ps: seq<string>, maxLen: nat): Packing
    decreases |ps|
  {
    if ps == [] then Packing([], "")
    else Step(Pack(ps[..|ps| - 1], maxLen), ps[|ps| - 1], maxLen)
  }

  /** The finished chunks, and cur when it is not empty. */
  function Flush(st: Packing): seq<string> {
    if st.cur != "" then st.chunks + [st.cur] else st.chunks
  }

  /** split_instructions(instr, maxLen): no chunks for empty instructions; the packed
      paragraphs otherwise, or the first maxLen characters when nothing was packed. */
  function Split(instr: string, maxLen: nat): seq<string> {
    if instr == "" then []
    else
      var cs := Flush(Pack(Paragraphs(instr), maxLen));
      if cs == [] then [instr[..Min(maxLen, |instr|)]] else cs
  }

  method SplitInstructions(instr: string, maxLen: nat) returns (chunks: seq<string>)
    ensures chunks == Split(instr, maxLen)
  {
    if instr == "" {
      return [];
    }
    var parts := Paragraphs(instr);
    var cur;
    chunks, cur := PackParagraphs(parts, maxLen);
    if cur != "" {
      chunks := chunks + [cur];
    }
    if chunks == [] {
      chunks := [instr[..Min(maxLen, |instr|)]];
    }
  }

  /** The loop of split_instructions over the paragraphs. */
  method PackParagraphs(parts: seq<string>, maxLen: nat) returns (chunks: seq<string>, cur: string)
    ensures Packing(chunks, cur) == Pack(parts, maxLen)
  {
    chunks, cur := [], "";
    var i := 0;
    while i < |parts|
      invariant 0 <= i <= |parts|
      invariant Packing(chunks, cur) == Pack(parts[..i], maxLen)
    {
      var p := parts[i];
      var add := (if cur != "" then "\n" else "") + p;
      if |cur| + |add| > maxLen {
        chunks := chunks + [cur];
        cur := p;
      } else {
        cur := cur + add;
      }
      assert parts[..i + 1][..i] == parts[..i];
      i := i + 1;
    }
    assert parts[..i] == parts;
  }

  /** The non-empty strings of cs, in order. */
  function NonEmpty(cs: seq<string>): seq<string>
    decreases |cs|
  {
    if cs == [] then []
    else NonEmpty(cs[..|cs| - 1]) + (if cs[|cs| - 1] != "" then [cs[|cs| - 1]] else [])
  }

  lemma NonEmptySnoc(cs: seq<string>, c: string)
    ensures NonEmpty(cs + [c]) == NonEmpty(cs) + (if c != "" then [c] else [])
  {
    assert (cs + [c])[..|cs|] == cs;
  }

  /** What holds of the loop state after the paragraphs ps. */
  ghost predicate PackInv(ps: seq<string>, st: Packing, maxLen: nat) {
    CurShape(ps, st) && Bounded(ps, st, maxLen) && InOrder(ps, st)
    && LeadingEmpty(ps, st, maxLen) && Greedy(st, maxLen)
  }

  /** cur is empty only before the first paragraph. */
  ghost predicate CurShape(ps: seq<string>, st: Packing) {
    && (st.cur == "" <==> ps == [])
    && (ps == [] ==> st.chunks == [])
  }

  /** A chunk longer than maxLen is one whole paragraph. */
  ghost predicate Bounded(ps: seq<string>, st: Packing, maxLen: nat) {
    && (|st.cur| <= maxLen || st.cur in ps)
    && (forall k | 0 <= k < |st.chunks| :: |st.chunks[k]| <= maxLen || st.chunks[k] in ps)
  }

  /** The non-empty chunks, newline-joined, are the paragraphs newline-joined. */
  ghost predicate InOrder(ps: seq<string>, st: Packing) {
    JoinWith("\n", NonEmpty(st.chunks + [st.cur])) == JoinWith("\n", ps)
  }

  /** Only the first chunk can be empty, and it is exactly when the first paragraph
      alone is longer than maxLen. */
  ghost predicate LeadingEmpty(ps: seq<string>, st: Packing, maxLen: nat) {
    && (ps != [] ==> (|ps[0]| > maxLen <==> st.chunks != [] && st.chunks[0] == ""))
    && (forall k | 1 <= k < |st.chunks| :: st.chunks[k] != "")
  }

  /** Each closed chunk could not take in the start of the next one. */
  ghost predicate Greedy(st: Packing, maxLen: nat) {
    && (forall i, j | 0 <= i && j == i + 1 < |st.chunks| :: |st.chunks[i]| + 1 + |st.chunks[j]| > maxLen)
    && (st.chunks != [] ==> |st.chunks[|st.chunks| - 1]| + 1 + |st.cur| > maxLen)
  }

  lemma {:induction false} PackInvariant(ps: seq<string>, maxLen: nat)
    requires forall k | 0 <= k < |ps| :: ps[k] != ""
    ensures PackInv(ps, Pack(ps, maxLen), maxLen)
    decreases |ps|
  {
    if ps != [] {
      var q := ps[..|ps| - 1];
      var p := ps[|ps| - 1];
      assert ps == q + [p];
      PackInvariant(q, maxLen);
      var st := Pack(q, maxLen);
      StepCur(q, st, p, maxLen);
      StepBounded(q, st, p, maxLen);
      StepOrder(q, st, p, maxLen);
      StepLeading(q, st, p, maxLen);
      StepGreedy(q, st, p, maxLen);
    }
  }

  lemma StepCur(q: seq<string>, st: Packing, p: string, maxLen: nat)
    requires CurShape(q, st) && p != ""
    ensures CurShape(q + [p], Step(st, p, maxLen))
  {
  }

  lemma StepBounded(q: seq<string>, st: Packing, p: string, maxLen: nat)
    requires CurShape(q, st) && Bounded(q, st, maxLen) && p != ""
    ensures Bounded(q + [p], Step(st, p, maxLen), maxLen)
  {
    assert forall x | x in q :: x in q + [p];
    assert p in q + [p];
  }

  lemma StepLeading(q: seq<string>, st: Packing, p: string, maxLen: nat)
    requires CurShape(q, st) && LeadingEmpty(q, st, maxLen) && p != ""
    ensures LeadingEmpty(q + [p], Step(st, p, maxLen), maxLen)
  {
    assert q != [] ==> (q + [p])[0] == q[0];
  }

  lemma StepGreedy(q: seq<string>, st: Packing, p: string, maxLen: nat)
    requires CurShape(q, st) && Greedy(st, maxLen) && p != ""
    ensures Greedy(Step(st, p, maxLen), maxLen)
  {
  }

  /** The packing step keeps the paragraphs' order. */
  lemma StepOrder(q: seq<string>, st: Packing, p: string, maxLen: nat)
    requires CurShape(q, st) && InOrder(q, st) && p != ""
    ensures InOrder(q + [p], Step(st, p, maxLen))
  {
    var add := (if st.cur != "" then "\n" else "") + p;
    if |st.cur| + |add| > maxLen {
      assert Step(st, p, maxLen) == Packing(st.chunks + [st.cur], p);
      CloseOrder(q, st, p);
    } else if st.cur == "" {
      assert st.chunks == [] && q == [];
      assert Step(st, p, maxLen) == Packing([], p);
      FirstOrder(p);
    } else {
      assert Step(st, p, maxLen) == Packing(st.chunks, st.cur + "\n" + p);
      ExtendOrder(q, st, p);
    }
  }

  /** Closing cur and starting a chunk with p keeps the order. */
  lemma CloseOrder(q: seq<string>, st: Packing, p: string)
    requires CurShape(q, st) && InOrder(q, st) && p != ""
    ensures InOrder(q + [p], Packing(st.chunks + [st.cur], p))
  {
    var old_ := NonEmpty(st.chunks + [st.cur]);
    JoinSnoc("\n", q, p);
    assert (st.chunks + [st.cur]) + [p] == st.chunks + [st.cur] + [p];
    NonEmptySnoc(st.chunks + [st.cur], p);
    JoinSnoc("\n", old_, p);
    if q == [] {
      NonEmptySnoc([], "");
      assert old_ == [];
    } else {
      NonEmptySnoc(st.chunks, st.cur);
      assert old_ != [];
    }
  }

  /** The first paragraph alone is in order. */
  lemma FirstOrder(p: string)
    requires p != ""
    ensures InOrder([p], Packing([], p))
  {
    assert [] + [p] == [p];
    NonEmptySnoc([], p);
    assert NonEmpty([]) == [];
  }

  /** Appending p to a non-empty cur after a newline keeps the order. */
  lemma ExtendOrder(q: seq<string>, st: Packing, p: string)
    requires CurShape(q, st) && InOrder(q, st) && p != "" && st.cur != ""
    ensures InOrder(q + [p], Packing(st.chunks, st.cur + "\n" + p))
  {
    var cur' := st.cur + "\n" + p;
    JoinSnoc("\n", q, p);
    NonEmptySnoc(st.chunks, st.cur);
    NonEmptySnoc(st.chunks, cur');
    var pre := NonEmpty(st.chunks);
    JoinSnoc("\n", pre, st.cur);
    JoinSnoc("\n", pre, cur');
  }

  // ---------- what split_instructions promises ----------

  /** The result is empty exactly for empty instructions. */
  lemma SplitEmpty(instr: string, maxLen: nat)
    ensures Split(instr, maxLen) == [] <==> instr == ""
  {
  }

  /** Instructions made of whitespace only give the single chunk instr[:max_len]. */
  lemma SplitBlank(instr: string, maxLen: nat)
    requires instr != ""
    requires forall i | 0 <= i < |instr| :: IsSpace(instr[i])
    ensures Split(instr, maxLen) == [instr[..Min(maxLen, |instr|)]]
  {
    BlankHasNoParagraphs(instr);
  }

  /** With at least one paragraph the result is the packed chunks followed by the chunk
      being filled, which is never empty. */
  lemma SplitPacked(instr: string, maxLen: nat)
    requires Paragraphs(instr) != []
    ensures var st := Pack(Paragraphs(instr), maxLen);
      st.cur != "" && Split(instr, maxLen) == st.chunks + [st.cur]
  {
    ParagraphsShape(instr);
    PackInvariant(Paragraphs(instr), maxLen);
  }

  /** Every chunk is at most maxLen characters long or is a single paragraph. */
  lemma SplitBound(instr: string, maxLen: nat)
    ensures forall k | 0 <= k < |Split(instr, maxLen)| ::
      |Split(instr, maxLen)[k]| <= maxLen || Split(instr, maxLen)[k] in Paragraphs(instr)
  {
    var ps := Paragraphs(instr);
    if instr != "" && ps != [] {
      ParagraphsShape(instr);
      PackInvariant(ps, maxLen);
      SplitPacked(instr, maxLen);
    }
  }

  /** The paragraphs keep their order: joining the non-empty chunks with newlines gives
      the paragraphs joined with newlines, and splitting that on newlines gives back the
      paragraphs. */
  lemma SplitKeepsOrder(instr: string, maxLen: nat)
    requires Paragraphs(instr) != []
    ensures JoinWith("\n", NonEmpty(Split(instr, maxLen))) == JoinWith("\n", Paragraphs(instr))
    ensures SplitOn('\n', JoinWith("\n", NonEmpty(Split(instr, maxLen)))) == Paragraphs(instr)
  {
    var ps := Paragraphs(instr);
    ParagraphsShape(instr);
    PackInvariant(ps, maxLen);
    SplitPacked(instr, maxLen);
    SplitJoin('\n', ps);
  }

  /** A first paragraph longer than maxLen makes the first chunk empty; no other chunk
      is ever empty. */
  lemma SplitLeadingEmpty(instr: string, maxLen: nat)
    requires Paragraphs(instr) != []
    ensures Split(instr, maxLen)[0] == "" <==> |Paragraphs(instr)[0]| > maxLen
    ensures forall k | 1 <= k < |Split(instr, maxLen)| :: Split(instr, maxLen)[k] != ""
  {
    var ps := Paragraphs(instr);
    ParagraphsShape(instr);
    PackInvariant(ps, maxLen);
    SplitPacked(instr, maxLen);
  }

  /** Packing is greedy: no two neighbouring chunks would have fitted into one. */
  lemma SplitGreedy(instr: string, maxLen: nat)
    ensures var r := Split(instr, maxLen);
      forall i, j | 0 <= i && j == i + 1 < |r| :: |r[i]| + 1 + |r[j]| > maxLen
  {
    var ps := Paragraphs(instr);
    if instr != "" && ps != [] {
      ParagraphsShape(instr);
      PackInvariant(ps, maxLen);
      SplitPacked(instr, maxLen);
      var st := Pack(ps, maxLen);
      assert Greedy(st, maxLen);
      GreedyClosed(st, maxLen);
    }
  }

  /** Closing a greedy packing keeps neighbouring chunks apart. */
  lemma GreedyClosed(st: Packing, maxLen: nat)
    requires Greedy(st, maxLen)
    ensures var r := st.chunks + [st.cur];
      forall i, j | 0 <= i && j == i + 1 < |r| :: |r[i]| + 1 + |r[j]| > maxLen
  {
  }

  // ---------- the chunk layout of insert_chunks ----------

  datatype ChunkKind = TitleChunk | IngredientsChunk | InstructionsChunk

  /** A chunk row's payload: its type, its text and its whitespace word count. */
  datatype Chunk = Chunk(kind: ChunkKind, content: string, tokenCount: nat)

  function InstructionChunk(part: string): Chunk {
    Chunk(InstructionsChunk, part, WordCount(part))
  }

  /** The chunk list for a title, ingredient lines and instruction parts: the title,
      the ingredients block, then one chunk per part. */
  function Layout(title: string, lines: seq<Option<string>>, parts: seq<string>): seq<Chunk> {
    var block := IngredientsBlock(lines);
    [Chunk(TitleChunk, title, WordCount(title)), Chunk(IngredientsChunk, block, WordCount(block))]
    + MapSeq(InstructionChunk, parts)
  }

  /** The instruction parts insert_chunks stores: `instructions_plain or ""`, split. */
  function InstructionParts(plain: Option<string>): seq<string> {
    Split(plain.GetOr(""), MaxChunkLen)
  }

  /** The chunks insert_chunks writes, in order. */
  function ChunkLayout(title: string, lines: seq<Option<string>>, plain: Option<string>): seq<Chunk> {
    Layout(title, lines, InstructionParts(plain))
  }

  /** insert_chunks' list of chunks, before it is written. */
  method BuildChunks(title: string, lines: seq<Option<string>>, plain: Option<string>)
    returns (chunks: seq<Chunk>)
    ensures chunks == ChunkLayout(title, lines, plain)
  {
    var parts := SplitInstructions(plain.GetOr(""), MaxChunkLen);
    chunks := AssembleChunks(title, lines, parts);
  }

  /** The appends of insert_chunks: title, ingredients, then each part in turn. */
  method AssembleChunks(title: string, lines: seq<Option<string>>, parts: seq<string>)
    returns (chunks: seq<Chunk>)
    ensures chunks == Layout(title, lines, parts)
  {
    chunks := [Chunk(TitleChunk, title, |Words(title)|)];
    var block := IngredientsBlock(lines);
    chunks := chunks + [Chunk(IngredientsChunk, block, |Words(block)|)];
    var i := 0;
    while i < |parts|
      invariant 0 <= i <= |parts|
      invariant |chunks| == 2 + i
      invariant chunks[..2] == Layout(title, lines, parts)[..2]
      invariant forall k | 0 <= k < i :: chunks[2 + k] == InstructionChunk(parts[k])
    {
      chunks := chunks + [Chunk(InstructionsChunk, parts[i], |Words(parts[i])|)];
      i := i + 1;
    }
  }

  /** The layout: the title chunk, then the ingredients chunk whose word count is one
      per line plus the words of the lines, then one chunk per instruction part, in
      order; every token count is the content's whitespace word count. */
  lemma LayoutShape(title: string, lines: seq<Option<string>>, parts: seq<string>)
    ensures var r := Layout(title, lines, parts);
      && |r| == 2 + |parts|
      && r[0].kind == TitleChunk && r[0].content == title
      && r[1].kind == IngredientsChunk && r[1].content == IngredientsBlock(lines)
      && r[1].tokenCount == |lines| + RenderedWords(lines)
      && (forall k | 2 <= k < |r| :: r[k].kind == InstructionsChunk && r[k].content == parts[k - 2])
      && (forall k | 0 <= k < |r| :: r[k].tokenCount == |Words(r[k].content)|)
  {
    IngredientsTokenCount(lines);
  }

  /** There are no instruction chunks exactly when the plain instructions are None or
      empty. */
  lemma NoInstructionChunks(plain: Option<string>)
    ensures InstructionParts(plain) == [] <==> plain == None || plain == Some("")
  {
    SplitEmpty(plain.GetOr(""), MaxChunkLen);
  }
}
