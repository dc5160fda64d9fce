/** Ingestion: load the source text file, split it into chunks, and create the persisted FAISS
    index or extend the existing one (`build_or_update_vector_db`). */
module VectorDatabase {
  import opened Wrappers
  import OsPath

  /** A LangChain document: its text and the `source` metadata the loader records. Chunks are
      documents too. */
  datatype Document = Document(pageContent: string, source: string)

  /** A source file on disk, as `TextLoader(path, encoding='utf-8')` sees it. */
  datatype SourceFile = Utf8Text(content: string) | NotUtf8

  const TxtDirectory: string := "txt/"
  const FilePath: string := OsPath.Join(TxtDirectory, ".txt")
  const FaissDbPath: string := "vectorstore"
  const IndexFile: string := OsPath.Join(FaissDbPath, "index.faiss")
  const ChunkSize: nat := 1000
  const ChunkOverlap: nat := 200

  /** The default source path and the index marker file, spelled out. */
  lemma PathConstants()
    ensures FilePath == "txt/.txt"
    ensures IndexFile == "vectorstore/index.faiss"
  {
  }

  /** The text splitter, given the documents, the chunk size and the chunk overlap. Its
      internals are the library's and are not modelled. */
  type Splitter = (seq<Document>, nat, nat) -> seq<Document>

  /** `load_txt`: a missing file gives no documents (after an error on the page); a file that is
      not valid UTF-8 makes the loader raise; any other file gives one document. */
  function LoadTxt(files: map<string, SourceFile>, path: string): (r: Result<seq<Document>, string>)
    ensures r == Success([]) <==> path !in files
    ensures r.Failure? <==> path in files && files[path].NotUtf8?
    ensures r.Success? && r.value != [] ==> r.value == [Document(files[path].content, path)]
  {
    if path !in files then Success([])
    else match files[path]
      case NotUtf8 => Failure("cannot decode " + path)
      case Utf8Text(content) => Success([Document(content, path)])
  }

  /** `create_chunks`: the splitter configured with chunk size 1000 and overlap 200. */
  function CreateChunks(documents: seq<Document>, split: Splitter): (chunks: seq<Document>)
    ensures chunks == split(documents, 1000, 200)
  {
    split(documents, ChunkSize, ChunkOverlap)
  }

  /** `txt_path or FILE_PATH`: no path, or the empty path, falls back to the default. */
  function SourcePath(txtPath: Option<string>): (path: string)
    ensures path != ""
    ensures txtPath.Some? && txtPath.value != "" ==> path == txtPath.value
    ensures txtPath == None || txtPath == Some("") ==> path == FilePath
  {
    if txtPath.None? || txtPath.value == "" then FilePath else txtPath.value
  }

  /** The entries of the index saved after ingesting `chunks`: an existing index with the new
      chunks added after its entries, or a new index of the chunks alone. */
  function Extended(index: Option<seq<Document>>, chunks: seq<Document>): (entries: seq<Document>)
    ensures var before := if index.Some? then index.value else [];
            |entries| == |before| + |chunks| && entries[..|before|] == before && entries[|before|..] == chunks
  {
    match index
    case None => chunks
    case Some(entries) => entries + chunks
  }

  /** Ingesting never drops an entry and never merges one: each document occurs in the new index
      as often as it occurred before plus as often as it occurs among the new chunks. */
  lemma {:induction false} ExtendedCounts(index: Option<seq<Document>>, chunks: seq<Document>, d: Document)
    ensures var before := if index.Some? then multiset(index.value) else multiset{};
            multiset(Extended(index, chunks))[d] == before[d] + multiset(chunks)[d]
  {
  }

  /** Ingesting the same chunks twice stores them twice: there is no de-duplication. */
  lemma {:induction false} IngestTwiceDuplicates(index: Option<seq<Document>>, chunks: seq<Document>)
    ensures Extended(Some(Extended(index, chunks)), chunks) == Extended(index, chunks + chunks)
  {
    match index
    case None =>
    case Some(entries) =>
      assert entries + chunks + chunks == entries + (chunks + chunks);
  }

  /** The persisted `vectorstore` directory: whether it exists and, when `index.faiss` is in it,
      the entries of the saved index. */
  class VectorStore {
    var dirExists: bool
    var index: Option<seq<Document>>

    /** The index is saved inside the directory. */
    ghost predicate Valid()
      reads this
    {
      index.Some? ==> dirExists
    }

    constructor (dirExists: bool, index: Option<seq<Document>>)
      requires index.Some? ==> dirExists
      ensures Valid() && this.dirExists == dirExists && this.index == index
    {
      this.dirExists := dirExists;
      this.index := index;
    }
  }

  /** `build_or_update_vector_db`. `files` is the file system the loader reads, `split` the text
      splitter, `setupOk` whether the embedding client is built and the `vectorstore` directory
      made (either step raising is caught and reported), and `embedOk` whether the embedding
      provider answers when the chunks are embedded (a failing call is caught and reported too). */
  method BuildOrUpdateVectorDb(store: VectorStore, files: map<string, SourceFile>, txtPath: Option<string>,
                               split: Splitter, setupOk: bool, embedOk: bool) returns (ok: bool)
    requires store.Valid()
    modifies store
    ensures store.Valid()
    ensures var loaded := LoadTxt(files, SourcePath(txtPath));
            if loaded.Failure? || loaded.value == [] || !setupOk then
              // the loader failed, found no file, or the set-up before `makedirs` raised: nothing on disk is touched
              !ok && store.dirExists == old(store.dirExists) && store.index == old(store.index)
            else
              // the directory is created; the index is saved, and True returned, only if embedding worked
              store.dirExists && ok == embedOk &&
              store.index == if embedOk then Some(Extended(old(store.index), CreateChunks(loaded.value, split)))
                             else old(store.index)
  {
    var documents := LoadTxt(files, SourcePath(txtPath));
    if documents.Failure? {
      return false;
    }
    if documents.value == [] {
      return false;
    }
    var chunks := CreateChunks(documents.value, split);
    if !setupOk {
      // `get_embedding_model()` or `os.makedirs` raised
      return false;
    }
    store.dirExists := true;
    var updated: seq<Document>;
    if store.index.Some? {
      // load the saved index, then add_documents embeds the new chunks
      if !embedOk {
        return false;
      }
      updated := store.index.value + chunks;
    } else {
      // from_documents embeds the chunks into a new index
      if !embedOk {
        return false;
      }
      updated := chunks;
    }
    store.index := Some(updated);
    return true;
  }
}
