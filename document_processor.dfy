/** The document processor of the knowledge base (backend/document_processor.py):
    JSON flattening into `key: value` lines, dispatch on the file extension, and the
    walk over a directory that keeps the documents that were read successfully.
    The file system, the JSON parser and the PDF and CSV extractors are parameters. */
module DocumentProcessor {
  import opened Results
  import opened PyStr

  // ------------------------------------------------------------------
  // JSON flattening
  // ------------------------------------------------------------------

  /** A parsed JSON value. A scalar carries the text Python's `str()` gives it
      (`None`, `True`, `3.5`, or the string itself). */
  datatype Json = Scalar(text: string) | Array(items: seq<Json>) | Object(entries: seq<(string, Json)>)

  /** The key of a dictionary member below `prefix`: joined with '.', or alone at the top. */
  function EntryKey(prefix: string, key: string): string {
    if prefix != "" then prefix + "." + key else key
  }

  /** The key of a list item below `prefix`; at the top level this is just `[i]`. */
  function ItemKey(prefix: string, i: nat): string {
    prefix + "[" + NatToString(i) + "]"
  }

  /** `flatten_json(obj, prefix)`: one `key: value` line per scalar, in document order. */
  function Flatten(obj: Json, prefix: string): seq<string>
    decreases obj, 2
  {
    match obj
    case Object(_) => FlattenEntries(obj, 0, prefix)
    case Array(_) => FlattenItems(obj, 0, prefix)
    case Scalar(t) => [prefix + ": " + t]
  }

  /** The dictionary loop of `flatten_json`, from the `i`-th member on. */
  function FlattenEntries(obj: Json, i: nat, prefix: string): seq<string>
    requires obj.Object? && i <= |obj.entries|
    decreases obj, 1, |obj.entries| - i
  {
    if i == |obj.entries| then []
    else
      var (key, value) := obj.entries[i];
      var newKey := EntryKey(prefix, key);
      (if value.Scalar? then [newKey + ": " + value.text] else Flatten(value, newKey))
      + FlattenEntries(obj, i + 1, prefix)
  }

  /** The list loop of `flatten_json`, from the `i`-th item on. */
  function FlattenItems(obj: Json, i: nat, prefix: string): seq<string>
    requires obj.Array? && i <= |obj.items|
    decreases obj, 1, |obj.items| - i
  {
    if i == |obj.items| then []
    else
      var item := obj.items[i];
      var newKey := ItemKey(prefix, i);
      (if item.Scalar? then [newKey + ": " + item.text] else Flatten(item, newKey))
      + FlattenItems(obj, i + 1, prefix)
  }

  /** One step of a path from the root of a JSON value to a scalar in it. */
  datatype Step = Key(name: string) | Index(position: nat)

  /** A scalar of a JSON value: where it sits, and its text. */
  type Leaf = (seq<Step>, string)

  /** Every scalar of `obj` with its path, in document order: the reference for what
      the flattening must produce. */
  function Leaves(obj: Json): seq<Leaf>
    decreases obj, 2
  {
    match obj
    case Scalar(t) => [([], t)]
    case Object(_) => EntryLeaves(obj, 0)
    case Array(_) => ItemLeaves(obj, 0)
  }

  function EntryLeaves(obj: Json, i: nat): seq<Leaf>
    requires obj.Object? && i <= |obj.entries|
    decreases obj, 1, |obj.entries| - i
  {
    if i == |obj.entries| then []
    else Under(Key(obj.entries[i].0), Leaves(obj.entries[i].1)) + EntryLeaves(obj, i + 1)
  }

  function ItemLeaves(obj: Json, i: nat): seq<Leaf>
    requires obj.Array? && i <= |obj.items|
    decreases obj, 1, |obj.items| - i
  {
    if i == |obj.items| then []
    else Under(Index(i), Leaves(obj.items[i])) + ItemLeaves(obj, i + 1)
  }

  /** The leaves of a child, seen from its parent. */
  function Under(s: Step, leaves: seq<Leaf>): seq<Leaf> {
    seq(|leaves|, j requires 0 <= j < |leaves| => ([s] + leaves[j].0, leaves[j].1))
  }

  /** Extends a key by one step. */
  function Extend(key: string, s: Step): string {
    match s
    case Key(name) => EntryKey(key, name)
    case Index(i) => ItemKey(key, i)
  }

  /** The key of the scalar at `path`, below `prefix`. */
  function Render(prefix: string, path: seq<Step>): string
    decreases |path|
  {
    if path == [] then prefix else Render(Extend(prefix, path[0]), path[1..])
  }

  /** The line printed for each leaf. */
  function Lines(prefix: string, leaves: seq<Leaf>): seq<string> {
    seq(|leaves|, j requires 0 <= j < |leaves| => Render(prefix, leaves[j].0) + ": " + leaves[j].1)
  }

  lemma LinesAppend(prefix: string, a: seq<Leaf>, b: seq<Leaf>)
    ensures Lines(prefix, a + b) == Lines(prefix, a) + Lines(prefix, b)
  {
  }

  lemma LinesUnder(prefix: string, s: Step, leaves: seq<Leaf>)
    ensures Lines(prefix, Under(s, leaves)) == Lines(Extend(prefix, s), leaves)
  {
    forall j | 0 <= j < |leaves|
      ensures Render(prefix, ([s] + leaves[j].0)) == Render(Extend(prefix, s), leaves[j].0)
    {
      assert ([s] + leaves[j].0)[1..] == leaves[j].0;
    }
  }

  /** `flatten_json` prints exactly one line per scalar leaf, in dictionary and list
      order, each headed by the leaf's path: dictionary keys joined with '.', list
      positions as `[i]`; empty dictionaries and lists print nothing. */
  lemma {:induction false} FlattenIsLeafLines(obj: Json, prefix: string)
    ensures Flatten(obj, prefix) == Lines(prefix, Leaves(obj))
    ensures |Flatten(obj, prefix)| == |Leaves(obj)|
    decreases obj, 2
  {
    match obj
    case Scalar(_) =>
    case Object(_) => EntriesAreLeafLines(obj, 0, prefix);
    case Array(_) => ItemsAreLeafLines(obj, 0, prefix);
  }

  lemma {:induction false} EntriesAreLeafLines(obj: Json, i: nat, prefix: string)
    requires obj.Object? && i <= |obj.entries|
    ensures FlattenEntries(obj, i, prefix) == Lines(prefix, EntryLeaves(obj, i))
    decreases obj, 1, |obj.entries| - i
  {
    if i < |obj.entries| {
      var (key, value) := obj.entries[i];
      var newKey := EntryKey(prefix, key);
      var head := if value.Scalar? then [newKey + ": " + value.text] else Flatten(value, newKey);
      assert head == Flatten(value, newKey);
      FlattenIsLeafLines(value, newKey);
      EntriesAreLeafLines(obj, i + 1, prefix);
      LinesUnder(prefix, Key(key), Leaves(value));
      LinesAppend(prefix, Under(Key(key), Leaves(value)), EntryLeaves(obj, i + 1));
    }
  }

  lemma {:induction false} ItemsAreLeafLines(obj: Json, i: nat, prefix: string)
    requires obj.Array? && i <= |obj.items|
    ensures FlattenItems(obj, i, prefix) == Lines(prefix, ItemLeaves(obj, i))
    decreases obj, 1, |obj.items| - i
  {
    if i < |obj.items| {
      var item := obj.items[i];
      var newKey := ItemKey(prefix, i);
      var head := if item.Scalar? then [newKey + ": " + item.text] else Flatten(item, newKey);
      assert head == Flatten(item, newKey);
      FlattenIsLeafLines(item, newKey);
      ItemsAreLeafLines(obj, i + 1, prefix);
      LinesUnder(prefix, Index(i), Leaves(item));
      LinesAppend(prefix, Under(Index(i), Leaves(item)), ItemLeaves(obj, i + 1));
    }
  }

  /** At the top level a dictionary key stands alone, a list position is `[i]`, and a
      bare scalar prints as `: value`. */
  lemma FlattenTopLevel(key: string, i: nat, t: string)
    ensures Render("", [Key(key)]) == key
    ensures Render("", [Index(i)]) == "[" + NatToString(i) + "]"
    ensures Flatten(Scalar(t), "") == [": " + t]
  {
    assert "" + ": " + t == ": " + t;
    assert [Key(key)][1..] == [];
    assert [Index(i)][1..] == [];
  }

  /** The first line of the text of a JSON document. */
  function JsonHeader(filename: string): string {
    "JSON Document: " + filename
  }

  /** The `content` of a JSON document: the header, then the flattened lines. */
  function JsonContent(filename: string, data: Json): string {
    JsonHeader(filename) + "\n" + Join(Flatten(data, ""), "\n")
  }

  /** When neither the file name nor any flattened line holds a newline, the content
      splits back into the header line followed by one line per scalar (and an empty
      last line when there is no scalar, as the header always ends in a newline). */
  lemma JsonContentLines(filename: string, data: Json)
    requires '\n' !in filename
    requires forall l :: l in Flatten(data, "") ==> '\n' !in l
    ensures Flatten(data, "") != [] ==>
      Split(JsonContent(filename, data), "\n") == [JsonHeader(filename)] + Flatten(data, "")
    ensures Flatten(data, "") == [] ==>
      Split(JsonContent(filename, data), "\n") == [JsonHeader(filename), ""]
  {
    var lines := Flatten(data, "");
    var parts := if lines == [] then [JsonHeader(filename), ""] else [JsonHeader(filename)] + lines;
    if lines != [] {
      assert parts[1..] == lines;
    }
    assert Join(parts, "\n") == JsonContent(filename, data);
    SplitJoinChar(parts, "\n");
  }

  // ------------------------------------------------------------------
  // Extension dispatch
  // ------------------------------------------------------------------

  /** The kinds of document the processor reads. */
  datatype FileKind = Pdf | Txt | Csv | JsonFile

  /** `self.supported_extensions`. */
  const SupportedExtensions: set<string> := {".pdf", ".txt", ".csv", ".json"}

  function ExtensionOf(kind: FileKind): (ext: string)
    ensures ext in SupportedExtensions
  {
    match kind
    case Pdf => ".pdf"
    case Txt => ".txt"
    case Csv => ".csv"
    case JsonFile => ".json"
  }

  /** The `if`/`elif` chain of `process_document` on a lowered extension. */
  function KindOf(ext: string): Option<FileKind> {
    if ext == ".pdf" then Some(Pdf)
    else if ext == ".txt" then Some(Txt)
    else if ext == ".csv" then Some(Csv)
    else if ext == ".json" then Some(JsonFile)
    else None
  }

  /** Every supported extension selects exactly one reader, and the reader of a kind is
      selected by that kind's extension alone. */
  lemma KindOfExtension(ext: string, kind: FileKind)
    ensures KindOf(ext).Some? <==> ext in SupportedExtensions
    ensures KindOf(ext) == Some(kind) <==> ext == ExtensionOf(kind)
  {
  }

  /** The index of the last occurrence of `c` in `s` (`str.rfind`). */
  function LastIndexOf(s: string, c: char): (r: Option<nat>)
    ensures r.Some? ==> r.value < |s| && s[r.value] == c && c !in s[r.value + 1..]
    ensures r.None? ==> c !in s
  {
    if s == [] then None
    else if s[|s| - 1] == c then Some(|s| - 1)
    else
      var r := LastIndexOf(s[..|s| - 1], c);
      assert s == s[..|s| - 1] + [s[|s| - 1]];
      if r.Some? then
        assert s[r.value + 1..] == s[..|s| - 1][r.value + 1..] + [s[|s| - 1]];
        r
      else r
  }

  /** `Path(p).name`: the text after the last '/', trailing slashes ignored. */
  function BaseName(path: string): (name: string)
    ensures '/' !in name
  {
    var t := RStripChar(path, '/');
    match LastIndexOf(t, '/')
    case None => t
    case Some(i) => t[i + 1..]
  }

  /** `PurePath.suffix` of a file name: from its last '.', unless that dot starts the
      name or ends it. */
  function Suffix(name: string): (ext: string)
    ensures ext == [] || (|ext| >= 2 && ext[0] == '.' && '.' !in ext[1..])
    ensures ext == [] || (|ext| < |name| && EndsWith(name, ext))
  {
    match LastIndexOf(name, '.')
    case Some(i) =>
      if 0 < i < |name| - 1 then name[i..] else []
    case None => []
  }

  /** The extension `process_document` and `process_directory` test. */
  function Extension(path: string): string {
    Lower(Suffix(BaseName(path)))
  }

  /** The result dictionary of a reader (its extra keys, such as the pages of a PDF,
      are not modelled). */
  datatype ProcessedDoc = ProcessedDoc(
    filename: string, content: string, fileType: string, success: bool, error: Option<string>)

  /** What the readers see of the outside world: the text of a file or the message of
      the exception reading it raised, the same for `json.load`, and the PDF and CSV
      readers, whose extraction is not modelled. */
  datatype Files = Files(
    read: string -> Result<string, string>,
    loadJson: string -> Result<Json, string>,
    extractPdf: string -> ProcessedDoc,
    extractCsv: string -> ProcessedDoc)

  /** `extract_text_from_txt`: the stripped file text, or the failure. */
  function ExtractTxt(path: string, files: Files): (d: ProcessedDoc)
    ensures d.fileType == "txt" && d.filename == BaseName(path)
    ensures d.success <==> files.read(path).Ok?
    ensures d.success ==> d.content == Strip(files.read(path).value) && d.error == None
    ensures !d.success ==> d.content == "" && d.error == Some(files.read(path).error)
  {
    match files.read(path)
    case Ok(text) => ProcessedDoc(BaseName(path), Strip(text), "txt", true, None)
    case Err(e) => ProcessedDoc(BaseName(path), "", "txt", false, Some(e))
  }

  /** `extract_text_from_json`: the flattened document, or the failure. */
  function ExtractJson(path: string, files: Files): (d: ProcessedDoc)
    ensures d.fileType == "json" && d.filename == BaseName(path)
    ensures d.success <==> files.loadJson(path).Ok?
    ensures d.success ==> d.content == JsonContent(BaseName(path), files.loadJson(path).value)
    ensures !d.success ==> d.content == "" && d.error == Some(files.loadJson(path).error)
  {
    match files.loadJson(path)
    case Ok(data) => ProcessedDoc(BaseName(path), JsonContent(BaseName(path), data), "json", true, None)
    case Err(e) => ProcessedDoc(BaseName(path), "", "json", false, Some(e))
  }

  /** The reader of one kind of document. */
  function Extract(kind: FileKind, path: string, files: Files): ProcessedDoc {
    match kind
    case Pdf => files.extractPdf(path)
    case Txt => ExtractTxt(path, files)
    case Csv => files.extractCsv(path)
    case JsonFile => ExtractJson(path, files)
  }

  /** `process_document(file_path)`. */
  function ProcessDocument(path: string, files: Files): ProcessedDoc {
    var ext := Extension(path);
    match KindOf(ext)
    case None => ProcessedDoc(BaseName(path), "", ext, false, Some("Unsupported file type: " + ext))
    case Some(kind) => Extract(kind, path, files)
  }

  /** An unsupported extension fails with "Unsupported file type" without consulting
      the file system; a supported one hands the path to the reader of its kind, so
      extensions that differ only in case are read alike. */
  lemma ProcessDocumentDispatch(path: string, files: Files, other: Files)
    ensures Extension(path) !in SupportedExtensions ==>
      var d := ProcessDocument(path, files);
      !d.success && d.content == "" && d.fileType == Extension(path)
      && d.error == Some("Unsupported file type: " + Extension(path))
      && d == ProcessDocument(path, other)
    ensures forall kind :: Extension(path) == ExtensionOf(kind) ==>
      ProcessDocument(path, files) == Extract(kind, path, files)
  {
    forall kind | Extension(path) == ExtensionOf(kind)
      ensures ProcessDocument(path, files) == Extract(kind, path, files)
    {
      KindOfExtension(Extension(path), kind);
    }
  }

  // ------------------------------------------------------------------
  // Directory walk
  // ------------------------------------------------------------------

  /** An entry of `directory.iterdir()`. */
  datatype DirEntry = DirEntry(path: string, isFile: bool)

  /** The entries `process_directory` hands to `process_document`. */
  predicate Selected(e: DirEntry) {
    e.isFile && Extension(e.path) in SupportedExtensions
  }

  /** The documents kept from `entries`, in listing order, where `process` reads one
      path and `selected` says which entries are read. */
  function Kept(entries: seq<DirEntry>, selected: DirEntry -> bool, process: string -> ProcessedDoc): seq<ProcessedDoc>
    decreases |entries|
  {
    if entries == [] then []
    else
      var e := entries[|entries| - 1];
      var d := process(e.path);
      Kept(entries[..|entries| - 1], selected, process) + (if selected(e) && d.success then [d] else [])
  }

  /** `process_directory`: `None` is a directory that does not exist. */
  function ProcessedDirectory(listing: Option<seq<DirEntry>>, files: Files): seq<ProcessedDoc> {
    match listing
    case None => []
    case Some(entries) => Kept(entries, Selected, p => ProcessDocument(p, files))
  }

  /** `process_directory` as the loop the source runs. */
  method ProcessDirectory(listing: Option<seq<DirEntry>>, files: Files) returns (docs: seq<ProcessedDoc>)
    ensures docs == ProcessedDirectory(listing, files)
  {
    if listing.None? {
      return [];
    }
    var entries := listing.value;
    var process := p => ProcessDocument(p, files);
    docs := [];
    for i := 0 to |entries|
      invariant docs == Kept(entries[..i], Selected, process)
    {
      assert entries[..i + 1][..i] == entries[..i];
      var e := entries[i];
      if e.isFile && Extension(e.path) in SupportedExtensions {
        var d := process(e.path);
        if d.success {
          docs := docs + [d];
        }
      }
    }
    assert entries[..|entries|] == entries;
  }

  /** The kept documents are exactly the successful results of the selected entries:
      every one succeeded, came from a file with a supported extension, and none is
      invented. */
  lemma {:induction false} KeptFacts(entries: seq<DirEntry>, selected: DirEntry -> bool, process: string -> ProcessedDoc)
    ensures |Kept(entries, selected, process)| <= |entries|
    ensures forall d :: d in Kept(entries, selected, process) <==>
      exists e :: e in entries && selected(e) && d == process(e.path) && d.success
    decreases |entries|
  {
    if entries != [] {
      var init := entries[..|entries| - 1];
      var e := entries[|entries| - 1];
      KeptFacts(init, selected, process);
      assert entries == init + [e];
      forall d | d in Kept(entries, selected, process)
        ensures exists x :: x in entries && selected(x) && d == process(x.path) && d.success
      {
        if d in Kept(init, selected, process) {
          var x :| x in init && selected(x) && d == process(x.path) && d.success;
          assert x in entries;
        } else {
          assert e in entries;
        }
      }
      forall d, x | x in entries && selected(x) && d == process(x.path) && d.success
        ensures d in Kept(entries, selected, process)
      {
        if x != e {
          assert x in init;
        }
      }
    }
  }

  /** Every document `process_directory` returns was read successfully and has a
      supported type; a missing directory gives nothing. */
  lemma ProcessedDirectoryFacts(listing: Option<seq<DirEntry>>, files: Files)
    ensures listing.None? ==> ProcessedDirectory(listing, files) == []
    ensures forall d :: d in ProcessedDirectory(listing, files) ==> d.success
    ensures listing.Some? ==> |ProcessedDirectory(listing, files)| <= |listing.value|
  {
    if listing.Some? {
      KeptFacts(listing.value, Selected, p => ProcessDocument(p, files));
    }
  }
}
