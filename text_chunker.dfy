/** `TextChunker` (backend/text_chunker.py): recursive splitting of a text on a
    list of separators into pieces of at most `chunk_size` characters, the chunk
    records built from the pieces, and the document metadata added to them. */
module TextChunker {
  import opened Results
  import opened PyStr

  /** The `ValueError`s the chunker can raise. */
  datatype ChunkError =
    | EmptySeparator            // `text.split("")`
    | ZeroRangeStep             // `range(0, len(text), 0)`
    | UnsupportedStrategy(strategy: string)

  /** The chunker's settings; `chunk_overlap` is stored but never used. */
  datatype Chunker = Chunker(chunkSize: int, chunkOverlap: int)

  /** `TextChunker()`. */
  const DefaultChunker := Chunker(1000, 200)

  /** The separators `recursive_chunking` uses when none are given. */
  const DefaultSeparators: seq<string> := ["\n\n", "\n", ". ", " ", ""]

  // ------------------------------------------------------------------
  // Packing the parts of a split
  // ------------------------------------------------------------------

  /** One turn of the packing loop over `(chunks, current_chunk)`. */
  function PackStep(acc: (seq<string>, string), part: string, sep: string, size: int): (seq<string>, string) {
    var (chunks, current) := acc;
    var test := current + (if current != "" then sep else "") + part;
    if |test| <= size then (chunks, test)
    else ((if current != "" then chunks + [current] else chunks), part)
  }

  /** The packing loop after the given parts. */
  function PackFrom(parts: seq<string>, sep: string, size: int): (seq<string>, string) {
    if parts == [] then ([], "")
    else PackStep(PackFrom(parts[..|parts| - 1], sep, size), parts[|parts| - 1], sep, size)
  }

  /** The greedy chunks: parts glued with the separator while they fit. */
  function Packed(parts: seq<string>, sep: string, size: int): seq<string> {
    var (chunks, current) := PackFrom(parts, sep, size);
    if current != "" then chunks + [current] else chunks
  }

  /** The packing loop of `split_text_recursive`. */
  method Pack(parts: seq<string>, sep: string, size: int) returns (chunks: seq<string>)
    ensures chunks == Packed(parts, sep, size)
  {
    chunks := [];
    var current := "";
    for i := 0 to |parts|
      invariant (chunks, current) == PackFrom(parts[..i], sep, size)
    {
      var part := parts[i];
      assert parts[..i + 1][..i] == parts[..i];
      var test := current + (if current != "" then sep else "") + part;
      if |test| <= size {
        current := test;
      } else {
        if current != "" {
          chunks := chunks + [current];
        }
        current := part;
      }
    }
    assert parts[..|parts|] == parts;
    if current != "" {
      chunks := chunks + [current];
    }
  }

  /** A packed chunk fits the limit unless it is a single over-long part. */
  predicate FitsOrPart(c: string, parts: seq<string>, size: int) {
    |c| <= size || c in parts
  }

  lemma {:induction false} PackFromChunks(parts: seq<string>, sep: string, size: int)
    ensures var (chunks, current) := PackFrom(parts, sep, size);
      && (forall c :: c in chunks ==> c != "" && FitsOrPart(c, parts, size))
      && (current == "" || FitsOrPart(current, parts, size))
  {
    if parts != [] {
      var init := parts[..|parts| - 1];
      PackFromChunks(init, sep, size);
      assert forall c :: c in init ==> c in parts;
    }
  }

  /** Every chunk the packing loop emits is non-empty and fits the limit, except a
      single part that is too long by itself. */
  lemma PackedChunks(parts: seq<string>, sep: string, size: int)
    ensures forall c :: c in Packed(parts, sep, size) ==> c != "" && FitsOrPart(c, parts, size)
  {
    PackFromChunks(parts, sep, size);
  }

  // ------------------------------------------------------------------
  // Force split
  // ------------------------------------------------------------------

  /** `[text[i:i+size] for i in range(0, len(text), size)]` for a positive size. */
  function Slices(text: string, size: nat): (r: seq<string>)
    requires size > 0
    decreases |text|
  {
    if text == [] then []
    else if |text| <= size then [text]
    else [text[..size]] + Slices(text[size..], size)
  }

  /** The same comprehension for any size: a zero step raises, a negative one
      gives an empty range. */
  function ForceSplit(text: string, size: int): Result<seq<string>, ChunkError> {
    if size == 0 then Err(ZeroRangeStep)
    else if size < 0 then Ok([])
    else Ok(Slices(text, size))
  }

  /** The concatenation of a list of strings. */
  function Concat(pieces: seq<string>): string {
    if pieces == [] then "" else pieces[0] + Concat(pieces[1..])
  }

  /** The slices glue back to the text; every slice but the last has exactly
      `size` characters and the last one between 1 and `size`. */
  lemma {:induction false} SlicesFacts(text: string, size: nat)
    requires size > 0
    ensures Concat(Slices(text, size)) == text
    ensures var r := Slices(text, size);
      && (forall k :: 0 <= k < |r| - 1 ==> |r[k]| == size)
      && (r != [] ==> 0 < |r[|r| - 1]| <= size)
      && (text != [] <==> r != [])
    decreases |text|
  {
    if |text| > size {
      var rest := text[size..];
      SlicesFacts(rest, size);
      var r := Slices(text, size);
      assert r[1..] == Slices(rest, size);
      assert text == text[..size] + rest;
    }
  }

  // ------------------------------------------------------------------
  // split_text_recursive
  // ------------------------------------------------------------------

  /** The first separator (in list order) that occurs in the text; the empty
      separator occurs in every text. */
  function FirstPresent(separators: seq<string>, text: string): (r: Option<nat>)
    ensures r.Some? ==> r.value < |separators| && Contains(text, separators[r.value])
    ensures r.Some? ==> forall j :: 0 <= j < r.value ==> !Contains(text, separators[j])
    ensures r.None? ==> forall j :: 0 <= j < |separators| ==> !Contains(text, separators[j])
  {
    if separators == [] then None
    else if Contains(text, separators[0]) then Some(0)
    else match FirstPresent(separators[1..], text)
      case None => None
      case Some(i) => Some(i + 1)
  }

  /** `split_text_recursive(text, separators)`. */
  function SplitRecursive(text: string, separators: seq<string>, size: int): Result<seq<string>, ChunkError>
    decreases |separators|, 1, 0
  {
    if |text| <= size then Ok(if IsBlank(text) then [] else [text])
    else match FirstPresent(separators, text)
      case None => ForceSplit(text, size)
      case Some(i) =>
        var sep := separators[i];
        if sep == "" then Err(EmptySeparator)
        else ResplitAll(Packed(Split(text, sep), sep, size), separators[1..], size)
  }

  /** The loop over the packed chunks: an over-long chunk is split again with the
      separator list minus its first entry, the others are kept. */
  function ResplitAll(chunks: seq<string>, rest: seq<string>, size: int): Result<seq<string>, ChunkError>
    decreases |rest| + 1, 0, |chunks|
  {
    if chunks == [] then Ok([])
    else
      var head :- (if |chunks[0]| > size then SplitRecursive(chunks[0], rest, size) else Ok([chunks[0]]));
      var tail :- ResplitAll(chunks[1..], rest, size);
      Ok(head + tail)
  }

  /** Every piece `split_text_recursive` returns has at most `size` characters. */
  lemma {:induction false} SplitRecursiveBounded(text: string, separators: seq<string>, size: int)
    ensures SplitRecursive(text, separators, size).Ok? ==>
      forall p :: p in SplitRecursive(text, separators, size).value ==> |p| <= size
    decreases |separators|, 1, 0
  {
    if |text| > size {
      match FirstPresent(separators, text)
      case None =>
        if size > 0 {
          SlicesBounded(text, size);
        }
      case Some(i) =>
        var sep := separators[i];
        if sep != "" {
          ResplitAllBounded(Packed(Split(text, sep), sep, size), separators[1..], size);
        }
    }
  }

  lemma {:induction false} ResplitAllBounded(chunks: seq<string>, rest: seq<string>, size: int)
    ensures ResplitAll(chunks, rest, size).Ok? ==>
      forall p :: p in ResplitAll(chunks, rest, size).value ==> |p| <= size
    decreases |rest| + 1, 0, |chunks|
  {
    if chunks != [] {
      if |chunks[0]| > size {
        SplitRecursiveBounded(chunks[0], rest, size);
      }
      ResplitAllBounded(chunks[1..], rest, size);
    }
  }

  lemma SlicesBounded(text: string, size: nat)
    requires size > 0
    ensures forall p :: p in Slices(text, size) ==> |p| <= size
  {
    SlicesFacts(text, size);
  }


  // ------------------------------------------------------------------
  // The pieces are slices of the text, in order
  // ------------------------------------------------------------------

  /** The pieces occur in the text one after the other, without overlapping: each is
      a slice `text[i..j]` lying after the previous one. */
  ghost predicate InOrderIn(pieces: seq<string>, text: string)
    decreases |pieces|
  {
    pieces == [] ||
    exists i :: SliceAt(text, i, pieces[0]) && InOrderIn(pieces[1..], text[i + |pieces[0]|..])
  }

  /** `piece` is the slice of `text` that starts at `i`. */
  ghost predicate SliceAt(text: string, i: int, piece: string)
  {
    0 <= i <= |text| - |piece| && text[i..i + |piece|] == piece
  }

  /** Text before the slices does not matter. */
  lemma InOrderInAfter(pieces: seq<string>, u: string, text: string)
    requires InOrderIn(pieces, text)
    ensures InOrderIn(pieces, u + text)
  {
    if pieces != [] {
      var p := pieces[0];
      var i :| SliceAt(text, i, p) && InOrderIn(pieces[1..], text[i + |p|..]);
      var t := u + text;
      assert t[|u| + i..|u| + i + |p|] == p;
      assert t[|u| + i + |p|..] == text[i + |p|..];
      assert SliceAt(t, |u| + i, p) && InOrderIn(pieces[1..], t[|u| + i + |p|..]);
    }
  }

  /** Text after the slices does not matter. */
  lemma {:induction false} InOrderInBefore(pieces: seq<string>, text: string, v: string)
    requires InOrderIn(pieces, text)
    ensures InOrderIn(pieces, text + v)
    decreases |pieces|
  {
    if pieces != [] {
      var p := pieces[0];
      var i :| SliceAt(text, i, p) && InOrderIn(pieces[1..], text[i + |p|..]);
      InOrderInBefore(pieces[1..], text[i + |p|..], v);
      var t := text + v;
      assert t[i..i + |p|] == p;
      assert t[i + |p|..] == text[i + |p|..] + v;
      assert SliceAt(t, i, p) && InOrderIn(pieces[1..], t[i + |p|..]);
    }
  }

  /** Slices of two texts, in order, are slices of the joined texts, in order. */
  lemma {:induction false} InOrderInConcat(a: seq<string>, x: string, b: seq<string>, y: string)
    requires InOrderIn(a, x) && InOrderIn(b, y)
    ensures InOrderIn(a + b, x + y)
    decreases |a|
  {
    if a == [] {
      assert a + b == b;
      InOrderInAfter(b, x, y);
    } else {
      var p := a[0];
      var i :| SliceAt(x, i, p) && InOrderIn(a[1..], x[i + |p|..]);
      InOrderInConcat(a[1..], x[i + |p|..], b, y);
      var t := x + y;
      assert (a + b)[0] == p && (a + b)[1..] == a[1..] + b;
      assert t[i..i + |p|] == p;
      assert t[i + |p|..] == x[i + |p|..] + y;
      assert SliceAt(t, i, (a + b)[0]) && InOrderIn((a + b)[1..], t[i + |p|..]);
    }
  }

  /** A text is a slice of itself. */
  lemma InOrderInWhole(s: string)
    ensures InOrderIn([s], s)
  {
    assert s[0..|s|] == s;
    assert SliceAt(s, 0, [s][0]) && InOrderIn([s][1..], s[|s|..]);
  }

  /** The pieces of a concatenation are its slices, in order. */
  lemma {:induction false} InOrderInConcatAll(pieces: seq<string>)
    ensures InOrderIn(pieces, Concat(pieces))
    decreases |pieces|
  {
    if pieces != [] {
      InOrderInWhole(pieces[0]);
      InOrderInConcatAll(pieces[1..]);
      InOrderInConcat([pieces[0]], pieces[0], pieces[1..], Concat(pieces[1..]));
      assert [pieces[0]] + pieces[1..] == pieces;
    }
  }

  lemma {:induction false} JoinSnoc(parts: seq<string>, sep: string, x: string)
    requires parts != []
    ensures Join(parts + [x], sep) == Join(parts, sep) + sep + x
    decreases |parts|
  {
    if |parts| > 1 {
      JoinSnoc(parts[1..], sep, x);
      assert (parts + [x])[1..] == parts[1..] + [x];
    }
  }

  /** The packing loop keeps its chunks as slices, in order, of the parts read so far,
      and the current chunk is what follows them. */
  lemma {:induction false} PackFromInOrder(parts: seq<string>, sep: string, size: int)
    ensures var (chunks, current) := PackFrom(parts, sep, size);
      var joined := Join(parts, sep);
      && |current| <= |joined| && joined[|joined| - |current|..] == current
      && InOrderIn(chunks, joined[..|joined| - |current|])
    decreases |parts|
  {
    if parts != [] {
      var init := parts[..|parts| - 1];
      var part := parts[|parts| - 1];
      assert parts == init + [part];
      var (chunks, current) := PackFrom(init, sep, size);
      var (chunks', current') := PackFrom(parts, sep, size);
      var joined := Join(parts, sep);
      if init == [] {
        assert joined == part;
        assert chunks' == [] && current' == part;
        assert joined[..|joined| - |current'|] == [];
      } else {
        PackFromInOrder(init, sep, size);
        var j := Join(init, sep);
        JoinSnoc(init, sep, part);
        var x := j[..|j| - |current|];
        assert j == x + current;
        var y := PackStepInOrder(chunks, current, x, part, sep, size);
        assert joined == y + current';
        assert joined[..|joined| - |current'|] == y;
      }
    }
  }

  /** One step of the packing loop keeps the chunks in order before the current chunk. */
  lemma PackStepInOrder(chunks: seq<string>, current: string, x: string, part: string, sep: string, size: int)
      returns (y: string)
    requires InOrderIn(chunks, x)
    ensures var (chunks', current') := PackStep((chunks, current), part, sep, size);
      x + current + sep + part == y + current' && InOrderIn(chunks', y)
  {
    var (chunks', current') := PackStep((chunks, current), part, sep, size);
    var test := current + (if current != "" then sep else "") + part;
    if |test| <= size {
      if current != "" {
        y := x;
        assert x + current + sep + part == y + current';
      } else {
        InOrderInBefore(chunks, x, sep);
        y := x + sep;
        assert x + current + sep + part == y + current';
      }
    } else if current != "" {
      InOrderInWhole(current);
      InOrderInConcat(chunks, x, [current], current);
      InOrderInBefore(chunks', x + current, sep);
      y := x + current + sep;
      assert x + current + sep + part == y + current';
    } else {
      InOrderInBefore(chunks, x, sep);
      y := x + sep;
      assert x + current + sep + part == y + current';
    }
  }

  /** The packed chunks are slices of the joined parts, in order. */
  lemma PackedInOrder(parts: seq<string>, sep: string, size: int)
    ensures InOrderIn(Packed(parts, sep, size), Join(parts, sep))
  {
    PackFromInOrder(parts, sep, size);
    var (chunks, current) := PackFrom(parts, sep, size);
    var joined := Join(parts, sep);
    var x := joined[..|joined| - |current|];
    assert joined == x + current;
    if current != "" {
      InOrderInWhole(current);
      InOrderInConcat(chunks, x, [current], current);
    } else {
      assert x == joined;
    }
  }

  /** Every piece `split_text_recursive` returns is a slice of the text, and the pieces
      come in text order without overlapping: the splitter only cuts the text, it
      never invents, reorders or repeats characters. */
  lemma {:induction false} SplitRecursiveInOrder(text: string, separators: seq<string>, size: int)
    ensures SplitRecursive(text, separators, size).Ok? ==>
      InOrderIn(SplitRecursive(text, separators, size).value, text)
    decreases |separators|, 1, 0
  {
    if |text| <= size {
      if !IsBlank(text) {
        InOrderInWhole(text);
      }
    } else {
      match FirstPresent(separators, text)
      case None =>
        if size > 0 {
          SlicesFacts(text, size);
          InOrderInConcatAll(Slices(text, size));
        }
      case Some(i) =>
        var sep := separators[i];
        if sep != "" {
          var parts := Split(text, sep);
          JoinSplit(text, sep);
          PackedInOrder(parts, sep, size);
          ResplitAllInOrder(Packed(parts, sep, size), separators[1..], size, text);
        }
    }
  }

  lemma {:induction false} ResplitAllInOrder(chunks: seq<string>, rest: seq<string>, size: int, text: string)
    requires InOrderIn(chunks, text)
    ensures ResplitAll(chunks, rest, size).Ok? ==> InOrderIn(ResplitAll(chunks, rest, size).value, text)
    decreases |rest| + 1, 0, |chunks|
  {
    if chunks != [] && ResplitAll(chunks, rest, size).Ok? {
      var c := chunks[0];
      var i :| SliceAt(text, i, c) && InOrderIn(chunks[1..], text[i + |c|..]);
      var after := text[i + |c|..];
      var head := if |c| > size then SplitRecursive(c, rest, size) else Ok([c]);
      if |c| > size {
        SplitRecursiveInOrder(c, rest, size);
      } else {
        InOrderInWhole(c);
      }
      ResplitAllInOrder(chunks[1..], rest, size, after);
      InOrderInConcat(head.value, c, ResplitAll(chunks[1..], rest, size).value, after);
      InOrderInAfter(head.value + ResplitAll(chunks[1..], rest, size).value, text[..i], c + after);
      assert text == text[..i] + (c + after);
    }
  }

  /** A text within the limit is one piece when it is not blank and none
      otherwise, whatever the separators. */
  lemma ShortTextOnePiece(text: string, separators: seq<string>, size: int)
    requires |text| <= size
    ensures SplitRecursive(text, separators, size).Ok?
    ensures |SplitRecursive(text, separators, size).value| == (if AllSpace(text) then 0 else 1)
  {
    BlankIffAllSpace(text);
  }

  /** With the default separators, an over-long text that holds none of
      "\n\n", "\n", ". " and " " reaches the empty separator and fails instead of
      being force-split. */
  lemma DefaultSeparatorsFail(text: string, size: int)
    requires |text| > size
    requires forall j :: 0 <= j < 4 ==> !Contains(text, DefaultSeparators[j])
    ensures SplitRecursive(text, DefaultSeparators, size) == Err(EmptySeparator)
  {
    assert Contains(text, DefaultSeparators[4]) by {
      assert OccursAt(text, "", 0);
    }
    assert FirstPresent(DefaultSeparators, text) == Some(4);
  }

  /** A text of `size + 1` letters `a` with the default separators fails. */
  lemma LongWordFails()
    ensures SplitRecursive(seq(3, i => 'a'), DefaultSeparators, 2) == Err(EmptySeparator)
  {
    var text := seq(3, i => 'a');
    forall j | 0 <= j < 4
      ensures !Contains(text, DefaultSeparators[j])
    {
      var sep := DefaultSeparators[j];
      assert sep[|sep| - 1] != 'a';
    }
    DefaultSeparatorsFail(text, 2);
  }

  /** `split_text_recursive`, with its packing and re-splitting loops. */
  method SplitTextRecursive(text: string, separators: seq<string>, size: int)
    returns (res: Result<seq<string>, ChunkError>)
    ensures res == SplitRecursive(text, separators, size)
    decreases |separators|, 1
  {
    if |text| <= size {
      return Ok(if IsBlank(text) then [] else [text]);
    }
    var i := 0;
    while i < |separators|
      invariant 0 <= i <= |separators|
      invariant forall j :: 0 <= j < i ==> !Contains(text, separators[j])
    {
      var sep := separators[i];
      if Contains(text, sep) {
        assert FirstPresent(separators, text) == Some(i) by {
          FirstPresentUnique(separators, text, i);
        }
        if sep == "" {
          return Err(EmptySeparator);
        }
        var parts := Split(text, sep);
        var chunks := Pack(parts, sep, size);
        res := ResplitChunks(chunks, separators[1..], size);
        return;
      }
      i := i + 1;
    }
    assert FirstPresent(separators, text).None?;
    if size == 0 {
      return Err(ZeroRangeStep);
    }
    if size < 0 {
      return Ok([]);
    }
    res := ForceSlices(text, size);
  }

  /** The loop of `split_text_recursive` over the packed chunks. */
  method ResplitChunks(chunks: seq<string>, rest: seq<string>, size: int)
    returns (res: Result<seq<string>, ChunkError>)
    ensures res == ResplitAll(chunks, rest, size)
    decreases |rest| + 1, 0
  {
    var finalChunks: seq<string> := [];
    assert chunks[0..] == chunks;
    assert PrependOk([], ResplitAll(chunks, rest, size)) == ResplitAll(chunks, rest, size) by {
      if ResplitAll(chunks, rest, size).Ok? {
        assert [] + ResplitAll(chunks, rest, size).value == ResplitAll(chunks, rest, size).value;
      }
    }
    for k := 0 to |chunks|
      invariant ResplitAll(chunks, rest, size) == PrependOk(finalChunks, ResplitAll(chunks[k..], rest, size))
    {
      ResplitAllStep(chunks[k..], rest, size);
      assert chunks[k..][0] == chunks[k] && chunks[k..][1..] == chunks[k + 1..];
      var head: seq<string>;
      if |chunks[k]| > size {
        var sub := SplitTextRecursive(chunks[k], rest, size);
        if sub.Err? {
          return Err(sub.error);
        }
        head := sub.value;
      } else {
        head := [chunks[k]];
      }
      assert ResplitAll(chunks[k..], rest, size) == PrependOk(head, ResplitAll(chunks[k + 1..], rest, size));
      PrependOkAssoc(finalChunks, head, ResplitAll(chunks[k + 1..], rest, size));
      finalChunks := finalChunks + head;
    }
    assert chunks[|chunks|..] == [];
    assert finalChunks + [] == finalChunks;
    res := Ok(finalChunks);
  }

  /** The force-split comprehension as a loop over `range(0, len(text), size)`. */
  method ForceSlices(text: string, size: nat) returns (res: Result<seq<string>, ChunkError>)
    requires size > 0
    ensures res == Ok(Slices(text, size))
  {
    var pieces: seq<string> := [];
    var i := 0;
    assert text[0..] == text;
    while i < |text|
      invariant 0 <= i <= |text|
      invariant Slices(text, size) == pieces + Slices(text[i..], size)
      decreases |text| - i
    {
      var j := if i + size <= |text| then i + size else |text|;
      SlicesStep(text, i, size);
      pieces := pieces + [text[i..j]];
      i := j;
    }
    assert text[i..] == [];
    assert pieces + [] == pieces;
    res := Ok(pieces);
  }

  /** One slice of the comprehension, starting at `i`. */
  lemma SlicesStep(text: string, i: nat, size: nat)
    requires size > 0 && i < |text|
    ensures var j := if i + size <= |text| then i + size else |text|;
      Slices(text[i..], size) == [text[i..j]] + Slices(text[j..], size)
  {
    var j := if i + size <= |text| then i + size else |text|;
    var t := text[i..];
    if |t| > size {
      assert t[..size] == text[i..j];
      assert t[size..] == text[j..];
    } else {
      assert t == text[i..j];
      assert text[j..] == [];
    }
  }

  lemma FirstPresentUnique(separators: seq<string>, text: string, i: nat)
    requires i < |separators| && Contains(text, separators[i])
    requires forall j :: 0 <= j < i ==> !Contains(text, separators[j])
    ensures FirstPresent(separators, text) == Some(i)
  {
  }

  /** `done + r` when `r` succeeded, the failure otherwise. */
  function PrependOk(done: seq<string>, r: Result<seq<string>, ChunkError>): Result<seq<string>, ChunkError> {
    match r
    case Ok(v) => Ok(done + v)
    case Err(e) => Err(e)
  }

  lemma PrependOkAssoc(done: seq<string>, head: seq<string>, r: Result<seq<string>, ChunkError>)
    ensures PrependOk(done, PrependOk(head, r)) == PrependOk(done + head, r)
  {
    if r.Ok? {
      assert done + (head + r.value) == (done + head) + r.value;
    }
  }

  /** One turn of `ResplitAll`, unfolded. */
  lemma ResplitAllStep(chunks: seq<string>, rest: seq<string>, size: int)
    requires chunks != []
    ensures ResplitAll(chunks, rest, size)
      == (var head :- (if |chunks[0]| > size then SplitRecursive(chunks[0], rest, size) else Ok([chunks[0]]));
          var tail :- ResplitAll(chunks[1..], rest, size);
          Ok(head + tail))
  {
  }

  // ------------------------------------------------------------------
  // Chunk records
  // ------------------------------------------------------------------

  /** The document fields `chunk_document` adds to a chunk. */
  datatype DocumentInfo = DocumentInfo(
    documentId: string, fileType: string, chunkIndex: nat, totalChunks: nat, sourceFile: string)

  /** A chunk record: the stripped text, its raw index, its length, the strategy,
      and the document fields once added. */
  datatype Chunk = Chunk(content: string, chunkId: nat, chunkSize: nat, chunkType: string,
                         document: Option<DocumentInfo>)

  /** The records for the raw pieces from index `from` on. */
  function ChunkRecordsFrom(raw: seq<string>, from: nat): seq<Chunk>
    requires from <= |raw|
    decreases |raw| - from
  {
    if from == |raw| then []
    else
      var c := Strip(raw[from]);
      var rest := ChunkRecordsFrom(raw, from + 1);
      if c != "" then [Chunk(c, from, |c|, "recursive", None)] + rest else rest
  }

  /** `recursive_chunking(text)` with the default separators. */
  function RecursiveChunking(chunker: Chunker, text: string): Result<seq<Chunk>, ChunkError> {
    var raw :- SplitRecursive(text, DefaultSeparators, chunker.chunkSize);
    Ok(ChunkRecordsFrom(raw, 0))
  }

  /** The loop of `recursive_chunking` over the raw pieces. */
  method BuildChunkRecords(raw: seq<string>) returns (chunks: seq<Chunk>)
    ensures chunks == ChunkRecordsFrom(raw, 0)
  {
    chunks := [];
    for i := 0 to |raw|
      invariant chunks + ChunkRecordsFrom(raw, i) == ChunkRecordsFrom(raw, 0)
    {
      var content := Strip(raw[i]);
      if content != "" {
        chunks := chunks + [Chunk(content, i, |content|, "recursive", None)];
      }
    }
  }

  /** Every record has non-blank stripped content of its own piece, `chunk_size`
      equal to its length, the raw index of that piece as `chunk_id`, and type
      `recursive`; there is at most one record per piece. */
  lemma {:induction false} ChunkRecordFields(raw: seq<string>, from: nat)
    requires from <= |raw|
    ensures var r := ChunkRecordsFrom(raw, from);
      && |r| <= |raw| - from
      && forall k :: 0 <= k < |r| ==>
            from <= r[k].chunkId < |raw| && r[k].content == Strip(raw[r[k].chunkId])
            && r[k].content != "" && r[k].chunkSize == |r[k].content|
            && r[k].chunkType == "recursive" && r[k].document.None?
    decreases |raw| - from
  {
    if from < |raw| {
      ChunkRecordFields(raw, from + 1);
    }
  }

  /** The records keep the order of the pieces: `chunk_id` strictly increases. */
  lemma {:induction false} ChunkRecordOrder(raw: seq<string>, from: nat)
    requires from <= |raw|
    ensures var r := ChunkRecordsFrom(raw, from);
      forall k, l :: 0 <= k < l < |r| ==> r[k].chunkId < r[l].chunkId
    decreases |raw| - from
  {
    if from < |raw| {
      ChunkRecordOrder(raw, from + 1);
      ChunkRecordFields(raw, from + 1);
    }
  }

  /** Exactly the non-blank pieces get a record. */
  lemma {:induction false} ChunkRecordCoverage(raw: seq<string>, from: nat, i: nat)
    requires from <= i < |raw|
    ensures !IsBlank(raw[i]) <==> exists k :: 0 <= k < |ChunkRecordsFrom(raw, from)| && ChunkRecordsFrom(raw, from)[k].chunkId == i
    decreases |raw| - from
  {
    var r := ChunkRecordsFrom(raw, from);
    var rest := ChunkRecordsFrom(raw, from + 1);
    ChunkRecordFields(raw, from);
    ChunkRecordFields(raw, from + 1);
    if i > from {
      ChunkRecordCoverage(raw, from + 1, i);
      if Strip(raw[from]) != "" {
        assert r == [r[0]] + rest && r[0].chunkId == from;
        if !IsBlank(raw[i]) {
          var k :| 0 <= k < |rest| && rest[k].chunkId == i;
          assert r[k + 1].chunkId == i;
        } else {
          forall k | 0 <= k < |r|
            ensures r[k].chunkId != i
          {
            if k > 0 {
              assert r[k] == rest[k - 1];
            }
          }
        }
      }
    } else if Strip(raw[from]) != "" {
      assert r[0].chunkId == i;
    }
  }

  /** The content of a chunk is stripped: stripping it again changes nothing. */
  lemma ChunkContentStripped(raw: seq<string>)
    ensures forall c :: c in ChunkRecordsFrom(raw, 0) ==> Strip(c.content) == c.content
  {
    ChunkRecordFields(raw, 0);
    forall c | c in ChunkRecordsFrom(raw, 0)
      ensures Strip(c.content) == c.content
    {
      var k :| 0 <= k < |ChunkRecordsFrom(raw, 0)| && ChunkRecordsFrom(raw, 0)[k] == c;
      StripIdempotent(raw[c.chunkId]);
    }
  }

  // ------------------------------------------------------------------
  // chunk_document
  // ------------------------------------------------------------------

  /** The fields of `document_data` the chunker reads; absent ones are `None`. */
  datatype DocumentData = DocumentData(content: Option<string>, filename: Option<string>, fileType: Option<string>)

  /** The document fields added to chunk `i` of `n`. */
  function InfoFor(doc: DocumentData, i: nat, n: nat): DocumentInfo {
    DocumentInfo(doc.filename.GetOr("unknown"), doc.fileType.GetOr("unknown"), i, n, doc.filename.GetOr("unknown"))
  }

  /** The chunks with the document fields of chunk `i` of `n` added, from `i` on. */
  function Annotated(chunks: seq<Chunk>, doc: DocumentData): (r: seq<Chunk>)
    ensures |r| == |chunks|
    ensures forall i :: 0 <= i < |chunks| ==> r[i] == chunks[i].(document := Some(InfoFor(doc, i, |chunks|)))
  {
    seq(|chunks|, i requires 0 <= i < |chunks| => chunks[i].(document := Some(InfoFor(doc, i, |chunks|))))
  }

  /** `chunk_document(document_data, strategy)`. */
  function DocumentChunks(chunker: Chunker, doc: DocumentData, strategy: string): Result<seq<Chunk>, ChunkError> {
    var text := doc.content.GetOr("");
    if IsBlank(text) then Ok([])
    else if strategy != "recursive" then Err(UnsupportedStrategy(strategy))
    else
      var chunks :- RecursiveChunking(chunker, text);
      Ok(Annotated(chunks, doc))
  }

  /** `chunk_document`, with the loop that updates every chunk in place. */
  method ChunkDocument(chunker: Chunker, doc: DocumentData, strategy: string)
    returns (res: Result<seq<Chunk>, ChunkError>)
    ensures res == DocumentChunks(chunker, doc, strategy)
  {
    var text := doc.content.GetOr("");
    if IsBlank(text) {
      return Ok([]);
    }
    if strategy != "recursive" {
      return Err(UnsupportedStrategy(strategy));
    }
    var raw := SplitTextRecursive(text, DefaultSeparators, chunker.chunkSize);
    if raw.Err? {
      return Err(raw.error);
    }
    var chunks := BuildChunkRecords(raw.value);
    chunks := AddDocumentInfo(chunks, doc);
    res := Ok(chunks);
  }

  /** The loop of `chunk_document` that updates every chunk dict in place. */
  method AddDocumentInfo(chunks0: seq<Chunk>, doc: DocumentData) returns (chunks: seq<Chunk>)
    ensures chunks == Annotated(chunks0, doc)
  {
    chunks := chunks0;
    var n := |chunks|;
    for i := 0 to n
      invariant |chunks| == n
      invariant forall j :: 0 <= j < i ==> chunks[j] == chunks0[j].(document := Some(InfoFor(doc, j, n)))
      invariant forall j :: i <= j < n ==> chunks[j] == chunks0[j]
    {
      chunks := chunks[i := chunks[i].(document := Some(InfoFor(doc, i, n)))];
    }
  }

  /** Blank content gives no chunks whatever the strategy; otherwise a strategy
      other than `recursive` is refused; on success the chunks are numbered 0 to
      n-1 in order, all carry n as their total and the document's name (or
      `unknown`), and the split itself succeeded. */
  lemma ChunkDocumentFacts(chunker: Chunker, doc: DocumentData, strategy: string)
    ensures IsBlank(doc.content.GetOr("")) ==> DocumentChunks(chunker, doc, strategy) == Ok([])
    ensures !IsBlank(doc.content.GetOr("")) && strategy != "recursive" ==>
      DocumentChunks(chunker, doc, strategy) == Err(UnsupportedStrategy(strategy))
    ensures DocumentChunks(chunker, doc, strategy).Ok? ==>
      var r := DocumentChunks(chunker, doc, strategy).value;
      forall i :: 0 <= i < |r| ==>
        && r[i].document.Some?
        && r[i].document.value.chunkIndex == i
        && r[i].document.value.totalChunks == |r|
        && r[i].document.value.documentId == doc.filename.GetOr("unknown")
        && r[i].document.value.sourceFile == r[i].document.value.documentId
        && r[i].content != "" && r[i].chunkSize == |r[i].content|
    ensures DocumentChunks(chunker, doc, strategy).Err? ==>
      DocumentChunks(chunker, doc, strategy).error == UnsupportedStrategy(strategy)
      || SplitRecursive(doc.content.GetOr(""), DefaultSeparators, chunker.chunkSize).Err?
  {
    var text := doc.content.GetOr("");
    if !IsBlank(text) && strategy == "recursive" && SplitRecursive(text, DefaultSeparators, chunker.chunkSize).Ok? {
      ChunkRecordFields(SplitRecursive(text, DefaultSeparators, chunker.chunkSize).value, 0);
    }
  }
}
