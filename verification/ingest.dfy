/** ingestion/ingest.py: choosing, per loaded document, how it is embedded, and
    dropping what cannot be. The embedders are the parameters `embedText` and
    `embedImage` (the latter applied to the image's path: opening the file is
    outside the model). */
module Ingest {
  import opened Base
  import opened Chars
  import opened Clean
  import opened EmbedFunc
  import opened Load

  /** `TEXT_ELEMENT_TYPES`. */
  const TextTypes: set<string> :=
    {"Text", "Title", "NarrativeText", "Header", "Footer", "SectionHeader", "ListItem"}

  /** `{"embedding": vec, "document": doc}`. */
  datatype Record = Record(embedding: seq<real>, document: Document)

  /** An image document whose metadata has no `image_path`. */
  predicate MissingImagePath(d: Document) {
    d.meta.elementType == "Image" && d.meta.imagePath.None?
  }

  /** One iteration of the loop: `Ok(None)` for a document that is skipped
      (`continue`), `Ok(Some(record))` for one that is kept. */
  function IngestOne(d: Document, embedText: string -> seq<real>, embedImage: string -> seq<real>)
    : (r: Result<Option<Record>>)
    ensures r.Err? <==> MissingImagePath(d)
    ensures r.Err? ==> r.fault == KeyError("image_path")
    ensures r.Ok? && r.value.Some? ==> r.value.value.document == d
  {
    var t := d.meta.elementType;
    if t in TextTypes then
      var cleaned := CleanText(d.pageContent);
      if cleaned == "" then Ok(None) else Ok(Some(Record(embedText(cleaned), d)))
    else if t == "Table" then
      match EmbedTable(d.pageContent, embedText)
      case None => Ok(None)
      case Some(v) => Ok(Some(Record(v, d)))
    else if t == "Image" then
      match d.meta.imagePath
      case None => Err(KeyError("image_path"))
      case Some(path) => Ok(Some(Record(embedImage(path), d)))
    else Ok(None)
  }

  /** A text document is cleaned, skipped when nothing is left, and otherwise
      embedded from its cleaned text. */
  lemma IngestText(d: Document, embedText: string -> seq<real>, embedImage: string -> seq<real>)
    requires d.meta.elementType in TextTypes
    ensures var r := IngestOne(d, embedText, embedImage);
      && r.Ok?
      && (r.value.Some? <==> CleanText(d.pageContent) != "")
      && (r.value.Some? ==> r.value.value.embedding == embedText(CleanText(d.pageContent)))
  {
  }

  /** A table is kept exactly when the table gate accepts it, with the embedding
      of the headed, cleaned table. */
  lemma IngestTable(d: Document, embedText: string -> seq<real>, embedImage: string -> seq<real>)
    requires d.meta.elementType == "Table"
    ensures var r := IngestOne(d, embedText, embedImage);
      && r.Ok?
      && (r.value.Some? <==> EmbedTable(d.pageContent, embedText).Some?)
      && (r.value.Some? ==> r.value.value.embedding == embedText(TableHeader + CleanTableText(d.pageContent)))
  {
    var e := EmbedTable(d.pageContent, embedText);
    assert "Table" !in TextTypes;
    assert IngestOne(d, embedText, embedImage) == if e.None? then Ok(None) else Ok(Some(Record(e.value, d)));
  }

  /** An image with a path is always kept, embedded from that path. */
  lemma IngestImage(d: Document, embedText: string -> seq<real>, embedImage: string -> seq<real>)
    requires d.meta.elementType == "Image" && d.meta.imagePath.Some?
    ensures var r := IngestOne(d, embedText, embedImage);
      r.Ok? && r.value.Some? && r.value.value.embedding == embedImage(d.meta.imagePath.value)
  {
    assert "Image" !in TextTypes;
    assert IngestOne(d, embedText, embedImage) == Ok(Some(Record(embedImage(d.meta.imagePath.value), d)));
  }

  /** Every other element type is skipped. */
  lemma IngestOther(d: Document, embedText: string -> seq<real>, embedImage: string -> seq<real>)
    requires d.meta.elementType !in TextTypes && d.meta.elementType != "Table" && d.meta.elementType != "Image"
    ensures IngestOne(d, embedText, embedImage) == Ok(None)
  {
  }

  /** The documents the records hold, in order. */
  function Documents(rs: seq<Record>): (ds: seq<Document>)
    ensures |ds| == |rs|
    ensures forall i :: 0 <= i < |rs| ==> ds[i] == rs[i].document
  {
    if |rs| == 0 then [] else [rs[0].document] + Documents(rs[1..])
  }

  /** The loop shape of `ingest_documents`: `step` is applied to each item in
      turn, what it keeps is collected in order, and the first exception aborts
      the loop. */
  function Collect<T, R>(xs: seq<T>, step: T -> Result<Option<R>>): (r: Result<seq<R>>)
    ensures r.Ok? ==> |r.value| <= |xs|
    decreases |xs|
  {
    if |xs| == 0 then Ok([])
    else
      var head :- step(xs[0]);
      var tail :- Collect(xs[1..], step);
      Ok(Prepend(head, tail))
  }

  /** The loop completes exactly when no step raises. */
  lemma {:induction false} CollectOk<T, R>(xs: seq<T>, step: T -> Result<Option<R>>)
    ensures Collect(xs, step).Ok? <==> forall i :: 0 <= i < |xs| ==> step(xs[i]).Ok?
    decreases |xs|
  {
    if |xs| > 0 {
      CollectOk(xs[1..], step);
      assert forall i :: 1 <= i < |xs| ==> xs[i] == xs[1..][i - 1];
    }
  }

  /** What the loop collects after one more step: the step's item, if any, in front. */
  function Prepend<R>(head: Option<R>, tail: seq<R>): (r: seq<R>)
    ensures head.None? ==> r == tail
    ensures head.Some? ==> |r| == |tail| + 1 && r[0] == head.value && r[1..] == tail
  {
    match head
    case None => tail
    case Some(x) => [x] + tail
  }

  /** One step of a loop that completes. */
  lemma CollectStep<T, R>(xs: seq<T>, step: T -> Result<Option<R>>)
    requires |xs| > 0 && Collect(xs, step).Ok?
    ensures step(xs[0]).Ok? && Collect(xs[1..], step).Ok?
    ensures Collect(xs, step).value == Prepend(step(xs[0]).value, Collect(xs[1..], step).value)
  {
  }

  /** The exception that aborts the loop is the one of the first item whose
      step raises. */
  lemma {:induction false} CollectFirstFault<T, R>(xs: seq<T>, step: T -> Result<Option<R>>)
    requires Collect(xs, step).Err?
    ensures exists i :: 0 <= i < |xs| && step(xs[i]) == Err(Collect(xs, step).fault)
                        && forall j :: 0 <= j < i ==> step(xs[j]).Ok?
    decreases |xs|
  {
    if step(xs[0]).Ok? {
      CollectFirstFault(xs[1..], step);
      var i :| 0 <= i < |xs| - 1 && step(xs[1..][i]) == Err(Collect(xs[1..], step).fault)
                && forall j :: 0 <= j < i ==> step(xs[1..][j]).Ok?;
      assert forall j :: 1 <= j < i + 1 ==> xs[j] == xs[1..][j - 1];
      assert step(xs[i + 1]) == Err(Collect(xs, step).fault);
    } else {
      assert step(xs[0]) == Err(Collect(xs, step).fault);
    }
  }

  /** Running the loop over two batches one after the other collects what
      running it over both at once does. */
  lemma {:induction false} CollectBatches<T, R>(a: seq<T>, b: seq<T>, step: T -> Result<Option<R>>)
    requires Collect(a, step).Ok? && Collect(b, step).Ok?
    ensures Collect(a + b, step) == Ok(Collect(a, step).value + Collect(b, step).value)
    decreases |a|
  {
    var y := Collect(b, step).value;
    if |a| == 0 {
      assert a + b == b;
      assert Collect(a, step).value + y == y;
    } else {
      var ab := a + b;
      assert ab[1..] == a[1..] + b && ab[0] == a[0];
      CollectStep(a, step);
      CollectBatches(a[1..], b, step);
      var head := step(a[0]).value;
      var x := Collect(a[1..], step).value;
      assert Collect(ab[1..], step) == Ok(x + y);
      assert Prepend(head, x + y) == Prepend(head, x) + y;
    }
  }

  /** `ingest_documents(docs)`: the first image without a path aborts the whole
      batch; otherwise the records of the kept documents, in input order. */
  function IngestDocuments(docs: seq<Document>, embedText: string -> seq<real>,
                           embedImage: string -> seq<real>): (r: Result<seq<Record>>)
    ensures r.Ok? <==> forall i :: 0 <= i < |docs| ==> !MissingImagePath(docs[i])
    ensures r.Err? ==> r.fault == KeyError("image_path")
  {
    var r := Collect(docs, d => IngestOne(d, embedText, embedImage));
    CollectOk(docs, d => IngestOne(d, embedText, embedImage));
    if r.Err? then
      CollectFirstFault(docs, d => IngestOne(d, embedText, embedImage));
      r
    else r
  }

  /** The records follow the input order, one per kept document at most, so
      there are never more records than documents. */
  lemma {:induction false} IngestSubsequence(docs: seq<Document>, embedText: string -> seq<real>,
                                             embedImage: string -> seq<real>)
    requires IngestDocuments(docs, embedText, embedImage).Ok?
    ensures var rs := IngestDocuments(docs, embedText, embedImage).value;
      IsSubsequence(Documents(rs), docs) && |rs| <= |docs|
    decreases |docs|
  {
    var rs := IngestDocuments(docs, embedText, embedImage).value;
    if |docs| > 0 {
      IngestSubsequence(docs[1..], embedText, embedImage);
      var tail := IngestDocuments(docs[1..], embedText, embedImage).value;
      var ds := Documents(tail);
      if IngestOne(docs[0], embedText, embedImage).value.Some? {
        assert Documents(rs) == [docs[0]] + ds;
        assert Documents(rs)[1..] == ds;
      } else {
        assert rs == tail;
        SubsequenceSkip(ds, docs);
      }
      SubsequenceElements(Documents(rs), docs);
    }
  }

  /** Whatever a completed loop's step keeps is among the collected results. */
  lemma {:induction false} CollectComplete<T, R>(xs: seq<T>, step: T -> Result<Option<R>>, i: nat)
    requires Collect(xs, step).Ok?
    requires i < |xs| && step(xs[i]).Ok? && step(xs[i]).value.Some?
    ensures step(xs[i]).value.value in Collect(xs, step).value
    decreases |xs|
  {
    var rs := Collect(xs, step).value;
    var tail := Collect(xs[1..], step).value;
    assert rs == Prepend(step(xs[0]).value, tail);
    if i > 0 {
      assert xs[i] == xs[1..][i - 1];
      CollectComplete(xs[1..], step, i - 1);
      var k :| 0 <= k < |tail| && tail[k] == step(xs[i]).value.value;
      if step(xs[0]).value.Some? {
        assert rs[k + 1] == tail[k];
      } else {
        assert rs[k] == tail[k];
      }
    }
  }

  /** No document the per-document step keeps goes missing. */
  lemma IngestComplete(docs: seq<Document>, embedText: string -> seq<real>,
                       embedImage: string -> seq<real>, i: nat)
    requires IngestDocuments(docs, embedText, embedImage).Ok?
    requires i < |docs| && IngestOne(docs[i], embedText, embedImage).value.Some?
    ensures docs[i] in Documents(IngestDocuments(docs, embedText, embedImage).value)
  {
    var step := d => IngestOne(d, embedText, embedImage);
    assert step(docs[i]) == IngestOne(docs[i], embedText, embedImage);
    CollectComplete(docs, step, i);
    var rs := IngestDocuments(docs, embedText, embedImage).value;
    var k :| 0 <= k < |rs| && rs[k] == step(docs[i]).value.value;
    assert Documents(rs)[k] == docs[i];
  }

  /** Ingesting two batches one after the other gives the records of ingesting
      them together. */
  lemma IngestBatches(a: seq<Document>, b: seq<Document>, embedText: string -> seq<real>,
                      embedImage: string -> seq<real>)
    requires IngestDocuments(a, embedText, embedImage).Ok?
    requires IngestDocuments(b, embedText, embedImage).Ok?
    ensures IngestDocuments(a + b, embedText, embedImage)
         == Ok(IngestDocuments(a, embedText, embedImage).value + IngestDocuments(b, embedText, embedImage).value)
  {
    CollectBatches(a, b, d => IngestOne(d, embedText, embedImage));
  }

  /** Both modules name the same text types: a raw type becomes a text type at
      ingestion exactly when the loader folds it into "Text" or it is
      "SectionHeader", which the loader leaves alone but ingestion still treats
      as text. */
  lemma TextTypeAgreement(raw: string)
    ensures NormaliseType(raw) in TextTypes <==> IsPlainTextType(raw) || raw == "SectionHeader"
  {
  }

  /** A saved image from the loader is embedded from its saved file. */
  lemma LoadedImageIngested(el: Element, idx: nat, docId: string, path: string, hex: string,
                            embedText: string -> seq<real>, embedImage: string -> seq<real>)
    requires IsSavedImage(el)
    ensures var d := LoadElement(el, idx, docId, path, hex);
      && d.Some?
      && IngestOne(d.value, embedText, embedImage) == Ok(Some(Record(embedImage(ImagePath(hex)), d.value)))
  {
  }

  /** An Image element without image data but with text passes the loader as an
      "Image" document with no `image_path`, and ingesting it raises KeyError. */
  lemma UnsavedImageFails(el: Element, idx: nat, docId: string, path: string, hex: string,
                          embedText: string -> seq<real>, embedImage: string -> seq<real>)
    requires NormaliseType(el.rawType) == "Image" && !el.hasImage
    requires el.text.Some? && Strip(el.text.value) != ""
    ensures var d := LoadElement(el, idx, docId, path, hex);
      && d.Some?
      && IngestDocuments([d.value], embedText, embedImage) == Err(KeyError("image_path"))
  {
    var d := LoadElement(el, idx, docId, path, hex).value;
    assert MissingImagePath([d][0]);
  }
}
