/** The pure logic of the document view: file validation before upload, the
    status label, the silent-poll merge of a listing page and the list update
    after a delete. Documents are JSON objects: maps from field name to value. */
module Documents {
  import opened JsValues

  /** The JSON values a document field can hold here. */
  datatype Value = Undefined | Null | Bool(b: bool) | Num(n: int) | Str(s: string)

  type Doc = map<string, Value>

  predicate Truthy(v: Value) {
    match v
    case Bool(b) => b
    case Num(n) => n != 0
    case Str(s) => s != ""
    case _ => false
  }

  /** `doc.f` */
  function Field(d: Doc, f: string): Value {
    if f in d then d[f] else Undefined
  }

  /** `a || b` */
  function Or(a: Value, b: Value): Value {
    if Truthy(a) then a else b
  }

  // ---------------------------------------------------------------- validateFile

  datatype File = File(name: Option<string>, mimeType: string)

  const AllowedMimeTypes: seq<string> := [
    "application/pdf",
    "text/plain",
    "application/msword",
    "application/vnd.openxmlformats-officedocument.wordprocessingml.document",
    "text/html",
    ".md",
    ".markdown",
    "text/markdown",
    "text/x-markdown",
    "application/x-markdown"
  ]

  const NoFileMessage := "Selecione um arquivo."

  function RejectionMessage(mimeType: string): string {
    "Tipo de arquivo não permitido (" + mimeType + "). Permitidos: " + Join(AllowedMimeTypes, ", ")
  }

  /** The lower-cased name ends in `.md` or `.markdown`. */
  predicate HasMarkdownExtension(name: Option<string>) {
    var lowered := if TruthyStr(name) then Lower(name.value) else "";
    EndsWith(lowered, ".md") || EndsWith(lowered, ".markdown")
  }

  /** `validateFile`: an error message, or "" for an acceptable file. */
  function ValidateFile(file: Option<File>): (r: string)
    ensures file.None? ==> r == NoFileMessage
    ensures file.Some? ==> (r == "" <==> file.value.mimeType in AllowedMimeTypes || HasMarkdownExtension(file.value.name))
    ensures file.Some? && r != "" ==> r == RejectionMessage(file.value.mimeType)
  {
    match file
    case None => NoFileMessage
    case Some(f) =>
      if f.mimeType !in AllowedMimeTypes && !HasMarkdownExtension(f.name) then RejectionMessage(f.mimeType)
      else ""
  }

  /** A Markdown name is accepted whatever the browser reports as its type,
      and whatever the case of its extension. */
  lemma MarkdownNameAccepted(name: string, mimeType: string)
    requires EndsWith(Lower(name), ".md") || EndsWith(Lower(name), ".markdown")
    ensures ValidateFile(Some(File(Some(name), mimeType))) == ""
  {
  }

  /** Without a Markdown name, only the listed types pass; the message names the type. */
  lemma UnlistedTypeRejected(name: Option<string>, mimeType: string)
    requires mimeType !in AllowedMimeTypes && !HasMarkdownExtension(name)
    ensures var r := ValidateFile(Some(File(name, mimeType)));
            r != "" && r[|"Tipo de arquivo não permitido ("|..][..|mimeType|] == mimeType
  {
  }

  // ---------------------------------------------------------------- capitalize

  /** `capitalize`: a non-string or empty value comes back as it is; otherwise
      the first character upper-cased and the rest lower-cased (ASCII letters). */
  function Capitalize(v: Value): (r: Value)
    ensures !v.Str? || v.s == "" ==> r == v
    ensures v.Str? && v.s != "" ==> && r.Str? && |r.s| == |v.s|
                                    && r.s[0] == UpperChar(v.s[0])
                                    && forall i :: 1 <= i < |r.s| ==> r.s[i] == LowerChar(v.s[i])
  {
    if !v.Str? || |v.s| == 0 then v
    else Str([UpperChar(v.s[0])] + Lower(v.s[1..]))
  }

  lemma CapitalizeIdempotent(v: Value)
    ensures Capitalize(Capitalize(v)) == Capitalize(v)
  {
  }

  // ---------------------------------------------------------------- loadDocuments

  /** `doc.document_id || doc.id`: the key the silent poll matches documents by. */
  function PollKey(d: Doc): Value {
    Or(Field(d, "document_id"), Field(d, "id"))
  }

  /** The index of the last incoming document with the given key, or -1. */
  function LastIndexOf(incoming: seq<Doc>, key: Value): (j: int)
    ensures -1 <= j < |incoming|
    ensures j >= 0 ==> PollKey(incoming[j]) == key
    ensures forall k :: j < k < |incoming| ==> PollKey(incoming[k]) != key
  {
    if incoming == [] then -1
    else if PollKey(incoming[|incoming| - 1]) == key then |incoming| - 1
    else LastIndexOf(incoming[..|incoming| - 1], key)
  }

  /** `new Map(incoming.map(d => [PollKey(d), d])).get(key)`: a later entry with
      the same key replaces an earlier one, so the last match wins. */
  function Lookup(incoming: seq<Doc>, key: Value): (r: Option<Doc>)
    ensures r.None? <==> forall k :: 0 <= k < |incoming| ==> PollKey(incoming[k]) != key
    ensures r.Some? ==> PollKey(r.value) == key && r.value in incoming
    ensures r.Some? ==> exists j :: 0 <= j < |incoming| && r.value == incoming[j]
                                    && forall k :: j < k < |incoming| ==> PollKey(incoming[k]) != key
  {
    var j := LastIndexOf(incoming, key);
    if j < 0 then None else Some(incoming[j])
  }

  /** `incoming ? { ...doc, ...incoming } : doc` */
  function Overlay(doc: Doc, incoming: Option<Doc>): (r: Doc)
    ensures incoming.None? ==> r == doc
    ensures incoming.Some? ==> r.Keys == doc.Keys + incoming.value.Keys
    ensures incoming.Some? ==> forall f :: f in incoming.value ==> r[f] == incoming.value[f]
    ensures incoming.Some? ==> forall f :: f in doc && f !in incoming.value ==> r[f] == doc[f]
  {
    match incoming
    case None => doc
    case Some(d) => doc + d
  }

  /** The silent-poll merge: every document keeps its place; one whose key is in
      the incoming page gets the incoming fields on top of its own. */
  function MergePage(prev: seq<Doc>, incoming: seq<Doc>): (r: seq<Doc>)
    ensures |r| == |prev|
    ensures forall i :: 0 <= i < |r| && Lookup(incoming, PollKey(prev[i])).None? ==> r[i] == prev[i]
    ensures forall i :: 0 <= i < |r| && Lookup(incoming, PollKey(prev[i])).Some? ==>
              var d := Lookup(incoming, PollKey(prev[i])).value;
              && r[i].Keys == prev[i].Keys + d.Keys
              && (forall f :: f in d ==> r[i][f] == d[f])
              && (forall f :: f in prev[i] && f !in d ==> r[i][f] == prev[i][f])
  {
    seq(|prev|, i requires 0 <= i < |prev| => Overlay(prev[i], Lookup(incoming, PollKey(prev[i]))))
  }

  /** Overlaying a document that has the same key leaves the key alone. */
  lemma OverlayKeepsKey(doc: Doc, d: Doc)
    requires PollKey(d) == PollKey(doc)
    ensures PollKey(doc + d) == PollKey(doc)
  {
  }

  /** After a merge every document still has the key it had. */
  lemma MergeKeepsKeys(prev: seq<Doc>, incoming: seq<Doc>)
    ensures forall i :: 0 <= i < |prev| ==> PollKey(MergePage(prev, incoming)[i]) == PollKey(prev[i])
  {
  }

  /** Polling twice with the same page changes nothing the second time. */
  lemma MergeIdempotent(prev: seq<Doc>, incoming: seq<Doc>)
    ensures MergePage(MergePage(prev, incoming), incoming) == MergePage(prev, incoming)
  {
    var once := MergePage(prev, incoming);
    var twice := MergePage(once, incoming);
    MergeKeepsKeys(prev, incoming);
    forall i | 0 <= i < |prev|
      ensures twice[i] == once[i]
    {
      var found := Lookup(incoming, PollKey(prev[i]));
      assert Lookup(incoming, PollKey(once[i])) == found;
      if found.Some? {
        assert once[i] == prev[i] + found.value;
        assert twice[i] == (prev[i] + found.value) + found.value;
      }
    }
  }

  /** The page reply; each list or number may be missing. */
  datatype ListReply = ListReply(
    documents: Option<seq<Doc>>, items: Option<seq<Doc>>,
    total_pages: Option<int>, totalPages: Option<int>)

  /** `data.documents || data.items || []`: a list is truthy even when empty. */
  function IncomingDocs(reply: ListReply): (r: seq<Doc>)
    ensures reply.documents.Some? ==> r == reply.documents.value
    ensures reply.documents.None? && reply.items.Some? ==> r == reply.items.value
    ensures reply.documents.None? && reply.items.None? ==> r == []
  {
    match reply.documents
    case Some(docs) => docs
    case None => match reply.items
      case Some(items) => items
      case None => []
  }

  /** `data.total_pages || data.totalPages || 1`: never 0. */
  function NewTotalPages(reply: ListReply): (r: int)
    ensures r != 0
    ensures TruthyNum(reply.total_pages) ==> r == reply.total_pages.value
    ensures !TruthyNum(reply.total_pages) && TruthyNum(reply.totalPages) ==> r == reply.totalPages.value
    ensures !TruthyNum(reply.total_pages) && !TruthyNum(reply.totalPages) ==> r == 1
  {
    if TruthyNum(reply.total_pages) then reply.total_pages.value
    else if TruthyNum(reply.totalPages) then reply.totalPages.value
    else 1
  }

  /** The listing state `loadDocuments` writes. */
  datatype Listing = Listing(documents: seq<Doc>, page: int, size: int, totalPages: int)

  /** `loadDocuments(pageNum, pageSize, { silent })` once the reply has arrived. */
  function Loaded(view: Listing, pageNum: int, pageSize: int, silent: bool, reply: ListReply): (r: Listing)
    ensures r.page == pageNum && r.size == pageSize && r.totalPages == NewTotalPages(reply)
    ensures silent && pageNum == view.page && |IncomingDocs(reply)| == |view.documents| ==>
              r.documents == MergePage(view.documents, IncomingDocs(reply))
    ensures !silent || pageNum != view.page || |IncomingDocs(reply)| != |view.documents| ==>
              r.documents == IncomingDocs(reply)
  {
    var incoming := IncomingDocs(reply);
    var documents :=
      if pageNum == view.page then
        if |incoming| != |view.documents| || !silent then incoming else MergePage(view.documents, incoming)
      else incoming;
    Listing(documents, pageNum, pageSize, NewTotalPages(reply))
  }

  /** Keys are distinct within a page. */
  predicate DistinctKeys(docs: seq<Doc>) {
    forall i, j :: 0 <= i < j < |docs| ==> PollKey(docs[i]) != PollKey(docs[j])
  }

  /** A silent poll that brings back the very same page leaves it as it is,
      provided no two documents share a key. */
  lemma {:induction false} PollOfUnchangedPageIsStable(docs: seq<Doc>)
    requires DistinctKeys(docs)
    ensures MergePage(docs, docs) == docs
  {
    forall i | 0 <= i < |docs|
      ensures MergePage(docs, docs)[i] == docs[i]
    {
      var j := LastIndexOf(docs, PollKey(docs[i]));
      assert j == i;
      assert docs[i] + docs[i] == docs[i];
    }
  }

  // ---------------------------------------------------------------- handleDelete

  /** `doc.id || doc.document_id`: the key the delete compares with. */
  function DeleteKey(d: Doc): Value {
    Or(Field(d, "id"), Field(d, "document_id"))
  }

  /** `prev.filter(doc => DeleteKey(doc) !== documentId)` */
  function RemoveDeleted(prev: seq<Doc>, documentId: Value): (r: seq<Doc>)
    ensures Subsequence(r, prev)
    ensures forall i :: 0 <= i < |r| ==> DeleteKey(r[i]) != documentId
    ensures forall d :: DeleteKey(d) != documentId ==> multiset(r)[d] == multiset(prev)[d]
  {
    var r := Filter(prev, d => DeleteKey(d) != documentId);
    forall d | DeleteKey(d) != documentId
      ensures multiset(r)[d] == multiset(prev)[d]
    {
      FilterCounts(prev, d => DeleteKey(d) != documentId, d);
    }
    r
  }
}
