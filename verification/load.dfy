/** ingestion/load.py: turning partitioned file elements into documents. The
    partitioner (`partition`), the id generator (`uuid.uuid4().hex`) and saving an
    image to disk are outside the model: a file arrives already split into its
    elements, and the ids are parameters. */
module Load {
  import opened Base
  import opened Chars
  import opened JsonUtil

  /** One element the partitioner found: its class name, its `text` attribute
      (`None` when it has none), whether it carries image data, and the two
      metadata values the loader copies (`JNull` when absent). */
  datatype Element = Element(rawType: string, text: Option<string>, hasImage: bool,
                             pageNumber: Json, language: Json)

  /** An input file and the elements partitioned out of it, in order. */
  datatype SourceFile = SourceFile(path: string, elements: seq<Element>)

  /** A document's metadata. `imagePath` is present only on saved images; the
      page number, language and raw type only on text documents. */
  datatype DocMeta = DocMeta(docId: string, chunkId: string, source: string, fileExt: string,
                             elementType: string, imagePath: Option<string>,
                             pageNumber: Option<Json>, language: Option<Json>,
                             rawElementType: Option<string>)

  /** `Document(page_content, metadata)`. */
  datatype Document = Document(pageContent: string, meta: DocMeta)

  const ImageDir: string := "./data/images"

  /** The class names that the loader folds into "Text". */
  predicate IsPlainTextType(raw: string) {
    raw in {"Text", "NarrativeText", "Title", "Header", "Footer", "ListItem"}
  }

  /** The `element_type` normalisation. */
  function NormaliseType(raw: string): (t: string)
    ensures t == "Text" <==> IsPlainTextType(raw) || raw == "Text"
    ensures t != "Text" ==> t == raw
  {
    if IsPlainTextType(raw) then "Text" else raw
  }

  /** `f"{doc_id}_{idx}"`. */
  function ChunkId(docId: string, idx: nat): (r: string)
    ensures |r| > |docId| && r[..|docId|] == docId && r[|docId|] == '_'
  {
    docId + "_" + NatToString(idx)
  }

  /** A chunk id names its document and element: with underscore-free document
      ids (hex strings are), equal chunk ids mean the same document and index. */
  lemma ChunkIdInjective(d1: string, i1: nat, d2: string, i2: nat)
    requires forall k :: 0 <= k < |d1| ==> d1[k] != '_'
    requires forall k :: 0 <= k < |d2| ==> d2[k] != '_'
    requires ChunkId(d1, i1) == ChunkId(d2, i2)
    ensures d1 == d2 && i1 == i2
  {
    var c := ChunkId(d1, i1);
    FirstUnderscore(d1, i1);
    FirstUnderscore(d2, i2);
    assert d1 == c[..|d1|] == d2;
    assert NatToString(i1) == c[|d1| + 1..] == NatToString(i2);
    NatToStringInjective(i1, i2);
  }

  /** The first underscore of a chunk id ends its document id. */
  lemma FirstUnderscore(d: string, i: nat)
    requires forall k :: 0 <= k < |d| ==> d[k] != '_'
    ensures FirstIndex(ChunkId(d, i), '_') == Some(|d|)
  {
    var c := ChunkId(d, i);
    assert forall k :: 0 <= k < |d| ==> c[k] == d[k];
  }

  /** The index of the last `c` in `s`, if any. */
  function LastOf(s: string, c: char): (r: Option<nat>)
    ensures r.Some? ==> r.value < |s| && s[r.value] == c && forall k :: r.value < k < |s| ==> s[k] != c
    ensures r.None? ==> forall k :: 0 <= k < |s| ==> s[k] != c
  {
    LastIndex(s, c)
  }

  /** `os.path.splitext(path)[-1].lower()` for POSIX paths: the text from the last
      dot of the final path component, unless that component is only dots before
      it (a leading-dot name such as ".env" has no extension). */
  function FileExt(path: string): (r: string)
    ensures r == "" || (r[0] == '.' && forall k :: 0 <= k < |r| ==> r[k] != '/' && !IsUpper(r[k]))
  {
    var dot := LastOf(path, '.');
    var start := match LastOf(path, '/') case Some(i) => i + 1 case None => 0;
    if dot.Some? && start <= dot.value && exists k :: start <= k < dot.value && path[k] != '.' then
      var ext := path[dot.value..];
      assert forall k :: 0 <= k < |ext| ==> ext[k] == path[dot.value + k];
      LowerKeepsShape(ext);
      Lower(ext)
    else ""
  }

  lemma LowerKeepsShape(s: string)
    ensures forall k :: 0 <= k < |s| ==> (Lower(s)[k] == '/' <==> s[k] == '/') && !IsUpper(Lower(s)[k])
    ensures |s| > 0 ==> (Lower(s)[0] == '.' <==> s[0] == '.')
  {
  }

  /** `os.path.join(IMAGE_DIR, f"{hex}.png")`. */
  function ImagePath(hex: string): string {
    ImageDir + "/" + hex + ".png"
  }

  /** An Image element whose image data is present. */
  predicate IsSavedImage(el: Element) {
    NormaliseType(el.rawType) == "Image" && el.hasImage
  }

  /** The loader keeps a saved image, or an element whose text is not blank. */
  predicate Kept(el: Element) {
    IsSavedImage(el) || (el.text.Some? && Strip(el.text.value) != "")
  }

  /** The body of the element loop for element `idx` of a file. */
  function LoadElement(el: Element, idx: nat, docId: string, path: string, imageHex: string): (r: Option<Document>)
    ensures r.Some? <==> Kept(el)
    ensures r.Some? ==>
              && r.value.meta.docId == docId
              && r.value.meta.chunkId == ChunkId(docId, idx)
              && r.value.meta.source == path
              && r.value.meta.fileExt == FileExt(path)
              && r.value.meta.elementType == NormaliseType(el.rawType)
    ensures r.Some? && IsSavedImage(el) ==>
              && r.value.pageContent == ""
              && r.value.meta.elementType == "Image"
              && r.value.meta.imagePath == Some(ImagePath(imageHex))
    ensures r.Some? && !IsSavedImage(el) ==>
              && r.value.pageContent == el.text.value
              && r.value.meta.imagePath.None?
              && r.value.meta.rawElementType == Some(el.rawType)
  {
    var elementType := NormaliseType(el.rawType);
    var ext := FileExt(path);
    if elementType == "Image" && el.hasImage then
      Some(Document("", DocMeta(docId, ChunkId(docId, idx), path, ext, "Image",
                                Some(ImagePath(imageHex)), None, None, None)))
    else if el.text.None? || Strip(el.text.value) == "" then None
    else
      Some(Document(el.text.value,
                    DocMeta(docId, ChunkId(docId, idx), path, ext, elementType, None,
                            Some(el.pageNumber), Some(el.language), Some(el.rawType))))
  }

  /** The element indices the loader keeps, in order. */
  function KeptIndices(els: seq<Element>): (r: seq<nat>)
    ensures |r| <= |els|
    ensures forall i :: 0 <= i < |r| ==> r[i] < |els| && Kept(els[r[i]])
    ensures forall i, j :: 0 <= i < j < |r| ==> r[i] < r[j]
    ensures forall k :: 0 <= k < |els| && Kept(els[k]) ==> k in r
  {
    if |els| == 0 then []
    else
      var front := KeptIndices(els[..|els| - 1]);
      assert forall k :: 0 <= k < |els| - 1 ==> els[..|els| - 1][k] == els[k];
      if Kept(els[|els| - 1]) then front + [|els| - 1] else front
  }

  /** All documents of file number `n`, `doc_id` being the file's id and
      `imageHex(n, k)` the hex name drawn for the image at element `k`. */
  function LoadFile(f: SourceFile, n: nat, docId: string, imageHex: (nat, nat) -> string): (r: seq<Document>)
    ensures |r| == |KeptIndices(f.elements)|
    decreases |f.elements|
  {
    var els := f.elements;
    if |els| == 0 then []
    else
      var last := |els| - 1;
      var front := LoadFile(SourceFile(f.path, els[..last]), n, docId, imageHex);
      assert forall k :: 0 <= k < last ==> els[..last][k] == els[k];
      match LoadElement(els[last], last, docId, f.path, imageHex(n, last))
      case Some(d) => front + [d]
      case None => front
  }

  /** Document `i` of a file is what the element loop makes of the `i`-th kept
      element. */
  lemma {:induction false} LoadFileAligned(f: SourceFile, n: nat, docId: string, imageHex: (nat, nat) -> string)
    ensures var r := LoadFile(f, n, docId, imageHex);
      forall i :: 0 <= i < |r| ==>
        var k := KeptIndices(f.elements)[i];
        LoadElement(f.elements[k], k, docId, f.path, imageHex(n, k)) == Some(r[i])
    decreases |f.elements|
  {
    var els := f.elements;
    if |els| > 0 {
      var last := |els| - 1;
      var g := SourceFile(f.path, els[..last]);
      LoadFileAligned(g, n, docId, imageHex);
      var front := LoadFile(g, n, docId, imageHex);
      var r := LoadFile(f, n, docId, imageHex);
      var ks := KeptIndices(els);
      var kg := KeptIndices(g.elements);
      var tail := LoadElement(els[last], last, docId, f.path, imageHex(n, last));
      assert ks == if Kept(els[last]) then kg + [last] else kg;
      assert r == if tail.Some? then front + [tail.value] else front;
      forall i | 0 <= i < |r|
        ensures LoadElement(els[ks[i]], ks[i], docId, f.path, imageHex(n, ks[i])) == Some(r[i])
      {
        if i < |front| {
          assert r[i] == front[i] && ks[i] == kg[i];
          assert g.elements[kg[i]] == els[kg[i]];
        }
      }
    }
  }

  /** Every document of a file carries the file's id and a chunk id of its own
      element, in element order; skipped elements leave gaps in the numbering. */
  lemma LoadFileIds(f: SourceFile, n: nat, docId: string, imageHex: (nat, nat) -> string)
    ensures var r := LoadFile(f, n, docId, imageHex);
      && (forall i :: 0 <= i < |r| ==> r[i].meta.docId == docId && r[i].meta.source == f.path)
      && (forall i :: 0 <= i < |r| ==> r[i].meta.chunkId == ChunkId(docId, KeptIndices(f.elements)[i]))
  {
    LoadFileAligned(f, n, docId, imageHex);
  }

  /** Chunk ids within one file never repeat. */
  lemma LoadFileDistinct(f: SourceFile, n: nat, docId: string, imageHex: (nat, nat) -> string)
    requires forall k :: 0 <= k < |docId| ==> docId[k] != '_'
    ensures var r := LoadFile(f, n, docId, imageHex);
      forall i, j :: 0 <= i < j < |r| ==> r[i].meta.chunkId != r[j].meta.chunkId
  {
    var r := LoadFile(f, n, docId, imageHex);
    var ks := KeptIndices(f.elements);
    LoadFileIds(f, n, docId, imageHex);
    forall i, j | 0 <= i < j < |r| ensures r[i].meta.chunkId != r[j].meta.chunkId {
      if r[i].meta.chunkId == r[j].meta.chunkId {
        ChunkIdInjective(docId, ks[i], docId, ks[j]);
      }
    }
  }

  /** `load_documents(file_paths)`: the files' documents, file after file. File
      `n` gets the id `docIds(n)`; `imageHex(n, k)` names the image saved for its
      element `k`. */
  function LoadDocuments(files: seq<SourceFile>, docIds: nat -> string,
                         imageHex: (nat, nat) -> string): (r: seq<Document>)
    ensures |r| <= TotalElements(files)
  {
    if |files| == 0 then []
    else
      var last := |files| - 1;
      assert files[..last] + [files[last]] == files;
      TotalElementsSnoc(files[..last], files[last]);
      LoadDocuments(files[..last], docIds, imageHex)
        + LoadFile(files[last], last, docIds(last), imageHex)
  }

  function TotalElements(files: seq<SourceFile>): nat {
    if |files| == 0 then 0 else |files[0].elements| + TotalElements(files[1..])
  }

  lemma {:induction false} TotalElementsSnoc(files: seq<SourceFile>, f: SourceFile)
    ensures TotalElements(files + [f]) == TotalElements(files) + |f.elements|
    decreases |files|
  {
    if |files| > 0 {
      assert (files + [f])[1..] == files[1..] + [f];
      TotalElementsSnoc(files[1..], f);
    }
  }

  /** The documents of file `n` form one contiguous block, after those of the
      files before it. */
  lemma {:induction false} LoadDocumentsBlocks(files: seq<SourceFile>, docIds: nat -> string,
                                               imageHex: (nat, nat) -> string, n: nat)
    requires n < |files|
    ensures LoadDocuments(files[..n + 1], docIds, imageHex)
         == LoadDocuments(files[..n], docIds, imageHex) + LoadFile(files[n], n, docIds(n), imageHex)
  {
    var pre := files[..n + 1];
    assert pre[..n] == files[..n];
    assert pre[n] == files[n];
  }

  /** Where each loaded document comes from: (file number, element index). */
  function Origins(files: seq<SourceFile>): (o: seq<(nat, nat)>)
    ensures forall i :: 0 <= i < |o| ==> o[i].0 < |files|
  {
    if |files| == 0 then []
    else
      var last := |files| - 1;
      var ks := KeptIndices(files[last].elements);
      Origins(files[..last]) + seq(|ks|, j requires 0 <= j < |ks| => (last, ks[j]))
  }

  /** Every loaded document carries the id of the file it comes from, and the
      chunk id of its element in that file. */
  lemma {:induction false} LoadDocumentsFrom(files: seq<SourceFile>, docIds: nat -> string,
                                             imageHex: (nat, nat) -> string)
    ensures var r := LoadDocuments(files, docIds, imageHex);
      var o := Origins(files);
      && |o| == |r|
      && forall i :: 0 <= i < |r| ==>
           r[i].meta.docId == docIds(o[i].0) && r[i].meta.chunkId == ChunkId(docIds(o[i].0), o[i].1)
    decreases |files|
  {
    if |files| > 0 {
      var last := |files| - 1;
      var pre := files[..last];
      LoadDocumentsFrom(pre, docIds, imageHex);
      var a := LoadDocuments(pre, docIds, imageHex);
      var b := LoadFile(files[last], last, docIds(last), imageHex);
      LoadFileIds(files[last], last, docIds(last), imageHex);
      var ks := KeptIndices(files[last].elements);
      var r := a + b;
      var op := Origins(pre);
      var tag := seq(|ks|, j requires 0 <= j < |ks| => (last, ks[j]));
      var o := op + tag;
      assert r == LoadDocuments(files, docIds, imageHex);
      assert o == Origins(files);
      forall i | 0 <= i < |r|
        ensures r[i].meta.docId == docIds(o[i].0) && r[i].meta.chunkId == ChunkId(docIds(o[i].0), o[i].1)
      {
        if i >= |a| {
          assert r[i] == b[i - |a|] && o[i] == tag[i - |a|];
        } else {
          assert r[i] == a[i] && o[i] == op[i];
        }
      }
    }
  }

  /** With distinct, underscore-free document ids, no two loaded documents share
      a chunk id, across all files. */
  lemma {:induction false} LoadDocumentsDistinct(files: seq<SourceFile>, docIds: nat -> string,
                                                 imageHex: (nat, nat) -> string)
    requires forall n, k :: 0 <= n < |files| && 0 <= k < |docIds(n)| ==> docIds(n)[k] != '_'
    requires forall m, n :: 0 <= m < n < |files| ==> docIds(m) != docIds(n)
    ensures var r := LoadDocuments(files, docIds, imageHex);
      forall i, j :: 0 <= i < j < |r| ==> r[i].meta.chunkId != r[j].meta.chunkId
    decreases |files|
  {
    if |files| > 0 {
      var last := |files| - 1;
      var pre := files[..last];
      LoadDocumentsDistinct(pre, docIds, imageHex);
      LoadDocumentsFrom(pre, docIds, imageHex);
      var a := LoadDocuments(pre, docIds, imageHex);
      var o := Origins(pre);
      var b := LoadFile(files[last], last, docIds(last), imageHex);
      var ks := KeptIndices(files[last].elements);
      LoadFileDistinct(files[last], last, docIds(last), imageHex);
      LoadFileIds(files[last], last, docIds(last), imageHex);
      var r := a + b;
      assert r == LoadDocuments(files, docIds, imageHex);
      forall i, j | 0 <= i < j < |r| ensures r[i].meta.chunkId != r[j].meta.chunkId {
        if i < |a| && j >= |a| {
          assert r[i] == a[i] && r[j] == b[j - |a|];
          if r[i].meta.chunkId == r[j].meta.chunkId {
            ChunkIdInjective(docIds(o[i].0), o[i].1, docIds(last), ks[j - |a|]);
          }
        } else if i >= |a| {
          assert r[i] == b[i - |a|] && r[j] == b[j - |a|];
        } else {
          assert r[i] == a[i] && r[j] == a[j];
        }
      }
    }
  }
}
