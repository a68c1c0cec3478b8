/**
 * The bookkeeping of the ingestion script: gathering the document paths
 * extension by extension, reading each document, and flattening the
 * per-document splits into one chunk list with a parallel metadata list.
 * The file-system glob, the file reader and the text splitter are library
 * code and appear as parameters.
 */
module Ingest {
  import opened Wrappers
  import opened Seqs

  type Path = string

  /** Path(root).glob(pattern): the matching paths, in the order the file system yields them. */
  type Glob = (Path, string) -> seq<Path>

  /** Reading a file as UTF-8 text; None when it cannot be opened or decoded. */
  type Reader = Path -> Option<string>

  /** CharacterTextSplitter(chunk_size, separator).split_text(text). */
  type Splitter = (string, nat, string) -> seq<string>

  const ChunkSize: nat := 1500
  const Separator: string := "\n"

  /** The metadata dictionary {"source": path} attached to every chunk. */
  datatype Metadata = Metadata(source: Path)

  datatype Corpus = Corpus(data: seq<string>, sources: seq<Path>)

  datatype Chunks = Chunks(docs: seq<string>, metadatas: seq<Metadata>)

  /** The recursive pattern that selects files with extension `ext`. */
  function GlobPattern(ext: string): string
  {
    "**/*" + ext
  }

  /** The glob matches, one list per configured extension, in configuration order. */
  function MatchesPerExtension(root: Path, extensions: seq<string>, glob: Glob): (m: seq<seq<Path>>)
    ensures |m| == |extensions|
    ensures forall k :: 0 <= k < |extensions| ==> m[k] == glob(root, GlobPattern(extensions[k]))
  {
    seq(|extensions|, k requires 0 <= k < |extensions| => glob(root, GlobPattern(extensions[k])))
  }

  /** read_files: every match of every extension, one extension after another. */
  method ReadFiles(root: Path, extensions: seq<string>, glob: Glob) returns (fileList: seq<Path>)
    ensures fileList == Concat(MatchesPerExtension(root, extensions, glob))
  {
    ghost var m := MatchesPerExtension(root, extensions, glob);
    fileList := [];
    for k := 0 to |extensions|
      invariant fileList == Concat(m[..k])
    {
      ConcatStep(m, k);
      fileList := fileList + glob(root, GlobPattern(extensions[k]));
    }
    assert m[..|extensions|] == m;
  }

  /**
   * In the list read_files returns, the t-th match of extension k sits at
   * Offset(k) + t, and every match of an earlier extension precedes every
   * match of a later one.
   */
  lemma ExtensionOrder(root: Path, extensions: seq<string>, glob: Glob, k: nat, t: nat, l: nat, u: nat)
    requires k < l < |extensions|
    requires t < |glob(root, GlobPattern(extensions[k]))|
    requires u < |glob(root, GlobPattern(extensions[l]))|
    ensures var m := MatchesPerExtension(root, extensions, glob);
            var files := Concat(m);
            Offset(m, k) + t < Offset(m, l) + u < |files| &&
            files[Offset(m, k) + t] == glob(root, GlobPattern(extensions[k]))[t] &&
            files[Offset(m, l) + u] == glob(root, GlobPattern(extensions[l]))[u]
  {
    var m := MatchesPerExtension(root, extensions, glob);
    ConcatAt(m, k, t);
    ConcatAt(m, l, u);
    OffsetNext(m, k);
    OffsetMonotone(m, k + 1, l);
  }

  predicate AllReadable(ps: seq<Path>, read: Reader)
  {
    forall i :: 0 <= i < |ps| ==> read(ps[i]).Some?
  }

  /** The texts of the documents, in path order. */
  function Contents(ps: seq<Path>, read: Reader): (data: seq<string>)
    requires AllReadable(ps, read)
    ensures |data| == |ps| && forall i :: 0 <= i < |ps| ==> read(ps[i]) == Some(data[i])
  {
    seq(|ps|, i requires 0 <= i < |ps| => read(ps[i]).value)
  }

  /**
   * The loading loop: data[i] is the text of sources[i], which is ps[i].
   * Opening or decoding a file that fails stops the run at that file.
   */
  method LoadDocuments(ps: seq<Path>, read: Reader) returns (r: Result<Corpus, Path>)
    ensures r.Ok? <==> AllReadable(ps, read)
    ensures r.Ok? ==> r.value == Corpus(Contents(ps, read), ps)
    ensures r.Err? ==> exists i :: 0 <= i < |ps| && ps[i] == r.error && read(ps[i]).None? &&
                                   AllReadable(ps[..i], read)
  {
    var data: seq<string> := [];
    var sources: seq<Path> := [];
    for i := 0 to |ps|
      invariant AllReadable(ps[..i], read)
      invariant data == Contents(ps[..i], read) && sources == ps[..i]
    {
      var text := read(ps[i]);
      if text.None? {
        return Err(ps[i]);
      }
      data := data + [text.value];
      sources := sources + [ps[i]];
      assert ps[..i + 1] == ps[..i] + [ps[i]];
    }
    assert ps[..|ps|] == ps;
    r := Ok(Corpus(data, sources));
  }

  function SplitText(splitter: Splitter, text: string): seq<string>
  {
    splitter(text, ChunkSize, Separator)
  }

  /** The splits of each document, in document order. */
  function DocSplits(data: seq<string>, splitter: Splitter): (s: seq<seq<string>>)
    ensures |s| == |data| && forall i :: 0 <= i < |data| ==> s[i] == SplitText(splitter, data[i])
  {
    seq(|data|, i requires 0 <= i < |data| => SplitText(splitter, data[i]))
  }

  /** One metadata entry per split of each document, naming that document's source. */
  function MetaBlocks(data: seq<string>, sources: seq<Path>, splitter: Splitter): (s: seq<seq<Metadata>>)
    requires |data| <= |sources|
    ensures |s| == |data|
    ensures forall i :: 0 <= i < |data| ==> s[i] == Repeat(Metadata(sources[i]), |SplitText(splitter, data[i])|)
  {
    seq(|data|, i requires 0 <= i < |data| => Repeat(Metadata(sources[i]), |SplitText(splitter, data[i])|))
  }

  /** The chunk list and the metadata list have blocks of the same lengths. */
  lemma ChunkOffsetsAgree(data: seq<string>, sources: seq<Path>, splitter: Splitter, i: nat)
    requires |data| <= |sources| && i <= |data|
    ensures Offset(DocSplits(data, splitter), i) == Offset(MetaBlocks(data, sources, splitter), i)
  {
    SameShapeOffsets(DocSplits(data, splitter), MetaBlocks(data, sources, splitter), i);
  }

  /**
   * The chunk loop: `docs` is the splits of every document in document order,
   * `metadatas` runs parallel to it, and chunk j is attributed to the source
   * of the document whose splits contain position j.
   */
  method SplitDocuments(data: seq<string>, sources: seq<Path>, splitter: Splitter)
    returns (docs: seq<string>, metadatas: seq<Metadata>)
    requires |data| <= |sources|
    ensures docs == Concat(DocSplits(data, splitter))
    ensures metadatas == Concat(MetaBlocks(data, sources, splitter))
    ensures |docs| == |metadatas| == TotalLength(DocSplits(data, splitter))
    ensures forall j :: 0 <= j < |docs| ==>
              var i := Owner(DocSplits(data, splitter), j);
              metadatas[j] == Metadata(sources[i]) &&
              docs[j] == SplitText(splitter, data[i])[j - Offset(DocSplits(data, splitter), i)]
  {
    ghost var ds := DocSplits(data, splitter);
    ghost var mb := MetaBlocks(data, sources, splitter);
    docs, metadatas := [], [];
    for i := 0 to |data|
      invariant docs == Concat(ds[..i])
      invariant metadatas == Concat(mb[..i])
      invariant |docs| == |metadatas| == TotalLength(ds[..i])
    {
      var splits := SplitText(splitter, data[i]);
      ConcatStep(ds, i);
      ConcatStep(mb, i);
      docs := docs + splits;
      metadatas := metadatas + Repeat(Metadata(sources[i]), |splits|);
    }
    assert ds[..|data|] == ds;
    assert mb[..|data|] == mb;
    AttributionEverywhere(data, sources, splitter);
    forall j | 0 <= j < |docs|
      ensures var i := Owner(ds, j);
              metadatas[j] == Metadata(sources[i]) && docs[j] == SplitText(splitter, data[i])[j - Offset(ds, i)]
    {
      assert Attributed(data, sources, splitter, j);
    }
  }

  /** Chunk j and metadata entry j both come from document Owner(j). */
  lemma ChunkAttribution(data: seq<string>, sources: seq<Path>, splitter: Splitter, j: nat)
    requires |data| <= |sources|
    requires j < |Concat(DocSplits(data, splitter))|
    ensures var ds := DocSplits(data, splitter);
            var mb := Concat(MetaBlocks(data, sources, splitter));
            var i := Owner(ds, j);
            j < |mb| && mb[j] == Metadata(sources[i]) &&
            Concat(ds)[j] == SplitText(splitter, data[i])[j - Offset(ds, i)]
  {
    var ds := DocSplits(data, splitter);
    var mb := MetaBlocks(data, sources, splitter);
    var i := Owner(ds, j);
    ChunkOffsetsAgree(data, sources, splitter, i);
    ConcatAt(ds, i, j - Offset(ds, i));
    ConcatAt(mb, i, j - Offset(mb, i));
  }

  lemma AttributionEverywhere(data: seq<string>, sources: seq<Path>, splitter: Splitter)
    requires |data| <= |sources|
    ensures forall j :: 0 <= j < |Concat(DocSplits(data, splitter))| ==> Attributed(data, sources, splitter, j)
  {
    forall j | 0 <= j < |Concat(DocSplits(data, splitter))|
      ensures Attributed(data, sources, splitter, j)
    {
      ChunkAttribution(data, sources, splitter, j);
    }
  }

  /** Chunk j is taken from, and its metadata names, the document that owns position j. */
  predicate Attributed(data: seq<string>, sources: seq<Path>, splitter: Splitter, j: nat)
    requires |data| <= |sources| && j < |Concat(DocSplits(data, splitter))|
  {
    var ds := DocSplits(data, splitter);
    var mb := Concat(MetaBlocks(data, sources, splitter));
    var i := Owner(ds, j);
    j < |mb| && mb[j] == Metadata(sources[i]) &&
    Concat(ds)[j] == SplitText(splitter, data[i])[j - Offset(ds, i)]
  }

  /**
   * Document i contributes exactly its own splits to `docs`, and as many copies
   * of its source to `metadatas`, at the same positions; a document with no
   * splits owns no chunk.
   */
  lemma DocumentContribution(data: seq<string>, sources: seq<Path>, splitter: Splitter, i: nat)
    requires |data| <= |sources| && i < |data|
    ensures var ds := DocSplits(data, splitter);
            var mb := MetaBlocks(data, sources, splitter);
            var lo, hi := Offset(ds, i), Offset(ds, i + 1);
            var splits := SplitText(splitter, data[i]);
            hi - lo == |splits| && hi <= |Concat(ds)| == |Concat(mb)| &&
            Concat(ds)[lo..hi] == splits &&
            Concat(mb)[lo..hi] == Repeat(Metadata(sources[i]), |splits|) &&
            (splits == [] ==> forall j :: 0 <= j < |Concat(ds)| ==> Owner(ds, j) != i)
  {
    var ds := DocSplits(data, splitter);
    var mb := MetaBlocks(data, sources, splitter);
    BlockSlice(ds, i);
    BlockSlice(mb, i);
    ChunkOffsetsAgree(data, sources, splitter, i);
    ChunkOffsetsAgree(data, sources, splitter, i + 1);
    ChunkOffsetsAgree(data, sources, splitter, |data|);
    OffsetWhole(ds);
    OffsetWhole(mb);
  }

  /** Chunk order follows document order: a later chunk never comes from an earlier document. */
  lemma ChunkOrder(data: seq<string>, splitter: Splitter, j: nat, j': nat)
    requires j <= j' < |Concat(DocSplits(data, splitter))|
    ensures Owner(DocSplits(data, splitter), j) <= Owner(DocSplits(data, splitter), j')
  {
    OwnerMonotone(DocSplits(data, splitter), j, j');
  }

  /** A single document that splits into one chunk gives one chunk attributed to its path. */
  lemma SingleDocument(text: string, path: Path, splitter: Splitter)
    requires |SplitText(splitter, text)| == 1
    ensures Concat(DocSplits([text], splitter)) == SplitText(splitter, text)
    ensures Concat(MetaBlocks([text], [path], splitter)) == [Metadata(path)]
  {
    var ds, mb := DocSplits([text], splitter), MetaBlocks([text], [path], splitter);
    assert ds[..0] == [] && mb[..0] == [];
    assert Repeat(Metadata(path), 1) == [Metadata(path)];
  }

  /** The ingestion script up to the embedding step: gather, read, split. */
  method IngestCorpus(root: Path, extensions: seq<string>, glob: Glob, read: Reader, splitter: Splitter)
    returns (r: Result<Chunks, Path>)
    ensures var ps := Concat(MatchesPerExtension(root, extensions, glob));
            (r.Ok? <==> AllReadable(ps, read)) &&
            (r.Ok? ==> r.value.docs == Concat(DocSplits(Contents(ps, read), splitter)) &&
                       r.value.metadatas == Concat(MetaBlocks(Contents(ps, read), ps, splitter))) &&
            (r.Err? ==> exists i :: 0 <= i < |ps| && ps[i] == r.error && read(ps[i]).None? &&
                                    AllReadable(ps[..i], read))
  {
    var ps := ReadFiles(root, extensions, glob);
    var loaded := LoadDocuments(ps, read);
    if loaded.Err? {
      return Err(loaded.error);
    }
    var docs, metadatas := SplitDocuments(loaded.value.data, loaded.value.sources, splitter);
    r := Ok(Chunks(docs, metadatas));
  }
}
