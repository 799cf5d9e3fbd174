/**
 * The document actions: uploading a file into the `documents` bucket and
 * registering it, deleting both again, and the two document listings with
 * their download links.
 */
module DocumentActions {
  import opened Common
  import opened Text
  import opened Seqs
  import opened Store

  const InvalidUpload := "Dados inválidos para upload."
  const UploadFailed := "Falha ao enviar o arquivo."
  const RegisterFailed := "Falha ao registrar o documento."
  const Uploaded := "Documento enviado com sucesso!"
  const MissingInfo := "Informações insuficientes para excluir."
  const RemoveFailed := "Falha ao remover o arquivo do armazenamento."
  const RowDeleteFailed := "Falha ao remover o registro do documento."
  const Removed := "Documento excluído com sucesso."

  /** An uploaded file as the action sees it: its name and size in bytes. */
  datatype UploadedFile = UploadedFile(name: string, size: nat)

  function DocumentCreatedAt(d: Document): int {
    d.createdAt
  }

  /** Every document row points at an object present in the bucket. */
  predicate RowsBacked(documents: seq<Document>, blobs: set<string>) {
    forall k :: 0 <= k < |documents| ==> documents[k].path in blobs
  }

  // ---------------------------------------------------------------------------
  // The object path

  /** `${workspaceId}/${caseId}/${Date.now()}-${file.name}`. */
  function StoragePath(ws: Id, caseId: Id, now: nat, fileName: string): string {
    ws + "/" + caseId + "/" + NatToString(now) + "-" + fileName
  }

  /** The position of the first `c` in `s`, or `|s|` when there is none. */
  function IndexOf(s: string, c: char): nat {
    if s == [] || s[0] == c then 0 else 1 + IndexOf(s[1..], c)
  }

  /** In `a + [sep] + b` with no `sep` in `a`, the first separator follows `a`. */
  lemma {:induction false} IndexOfAfterFreeRun(a: string, b: string, sep: char)
    requires sep !in a
    ensures IndexOf(a + [sep] + b, sep) == |a|
  {
    if a != [] {
      assert (a + [sep] + b)[1..] == a[1..] + [sep] + b;
      IndexOfAfterFreeRun(a[1..], b, sep);
    }
  }

  /** Text before a separator that does not occur in it is determined by the whole. */
  lemma SplitAtFirst(a: string, b: string, a2: string, b2: string, sep: char)
    requires sep !in a && sep !in a2
    requires a + [sep] + b == a2 + [sep] + b2
    ensures a == a2 && b == b2
  {
    var s := a + [sep] + b;
    IndexOfAfterFreeRun(a, b, sep);
    IndexOfAfterFreeRun(a2, b2, sep);
    assert a == s[..|a|] == a2;
    assert b == s[|a| + 1..] == b2;
  }

  lemma DigitsHaveNoDash(s: string)
    requires AllDigits(s)
    ensures '-' !in s
  {
    forall i | 0 <= i < |s| ensures s[i] != '-' {
      assert IsDigit(s[i]);
    }
  }

  /** Two numbers with the same decimal numeral are equal. */
  lemma NumeralInjective(m: nat, n: nat)
    requires NatToString(m) == NatToString(n)
    ensures m == n
  {
    assert DigitsValue(NatToString(m)) == m;
  }

  /**
   * Workspace and case ids are UUIDs and carry no `/`. For such ids the path
   * determines the workspace, the case, the upload instant and the file name:
   * two uploads that differ in any of them never share an object.
   */
  lemma StoragePathInjective(ws: Id, caseId: Id, now: nat, fileName: string,
                             ws2: Id, caseId2: Id, now2: nat, fileName2: string)
    requires '/' !in ws && '/' !in caseId && '/' !in ws2 && '/' !in caseId2
    requires StoragePath(ws, caseId, now, fileName) == StoragePath(ws2, caseId2, now2, fileName2)
    ensures ws == ws2 && caseId == caseId2 && now == now2 && fileName == fileName2
  {
    var t1 := NatToString(now);
    var t2 := NatToString(now2);
    var rest1 := caseId + "/" + t1 + "-" + fileName;
    var rest2 := caseId2 + "/" + t2 + "-" + fileName2;
    assert StoragePath(ws, caseId, now, fileName) == ws + ['/'] + rest1;
    assert StoragePath(ws2, caseId2, now2, fileName2) == ws2 + ['/'] + rest2;
    SplitAtFirst(ws, rest1, ws2, rest2, '/');
    var tail1 := t1 + "-" + fileName;
    var tail2 := t2 + "-" + fileName2;
    assert rest1 == caseId + ['/'] + tail1;
    assert rest2 == caseId2 + ['/'] + tail2;
    SplitAtFirst(caseId, tail1, caseId2, tail2, '/');
    DigitsHaveNoDash(t1);
    DigitsHaveNoDash(t2);
    assert tail1 == t1 + ['-'] + fileName;
    assert tail2 == t2 + ['-'] + fileName2;
    SplitAtFirst(t1, fileName, t2, fileName2, '-');
    NumeralInjective(now, now2);
  }

  // ---------------------------------------------------------------------------
  // uploadDocument

  /**
   * `uploadDocument`. A missing workspace, case id or file, or an empty file,
   * is refused with nothing written. The object is stored first; when that
   * fails no row is written. Then the row is inserted with the object's path
   * and the file's own name; when that fails the object stays in the bucket
   * without a row. Rows that pointed at stored objects still do.
   */
  method UploadDocument(db: Backend, user: Option<Id>, caseId: Option<string>, file: Option<UploadedFile>,
                        now: nat, newId: Id, uploadOk: bool, insertOk: bool) returns (r: Outcome)
    modifies db`documents, db`blobs
    ensures ActiveWorkspace(db.workspaces, user).None? || !Present(caseId) || file.None? || file.value.size == 0 ==>
      r == Failure(InvalidUpload) && db.documents == old(db.documents) && db.blobs == old(db.blobs)
    ensures ActiveWorkspace(db.workspaces, user).Some? && Present(caseId) && file.Some? && file.value.size > 0 ==>
      var ws := ActiveWorkspace(db.workspaces, user).value;
      var path := StoragePath(ws, caseId.value, now, file.value.name);
      && (!uploadOk ==> r == Failure(UploadFailed) && db.documents == old(db.documents) && db.blobs == old(db.blobs))
      && (uploadOk && !insertOk ==>
            r == Failure(RegisterFailed) && db.documents == old(db.documents) && db.blobs == old(db.blobs) + {path})
      && (uploadOk && insertOk ==>
            && r == Success(Uploaded)
            && db.blobs == old(db.blobs) + {path}
            && db.documents == old(db.documents) + [Document(newId, ws, caseId.value, file.value.name, path, now)])
    ensures RowsBacked(old(db.documents), old(db.blobs)) ==> RowsBacked(db.documents, db.blobs)
  {
    var ws := ActiveWorkspace(db.workspaces, user);
    if ws.None? || !Present(caseId) || file.None? || file.value.size == 0 {
      return Failure(InvalidUpload);
    }
    var path := StoragePath(ws.value, caseId.value, now, file.value.name);
    if !uploadOk {
      return Failure(UploadFailed);
    }
    db.blobs := db.blobs + {path};
    if !insertOk {
      return Failure(RegisterFailed);
    }
    db.documents := db.documents + [Document(newId, ws.value, caseId.value, file.value.name, path, now)];
    r := Success(Uploaded);
  }

  // ---------------------------------------------------------------------------
  // deleteDocument

  /** The documents without the one(s) carrying `id`. */
  function WithoutDocument(documents: seq<Document>, id: Id): (r: seq<Document>)
    ensures forall d :: d in r <==> d in documents && d.id != id
    ensures multiset(r) <= multiset(documents)
  {
    Filter(documents, (d: Document) => d.id != id)
  }

  /**
   * `deleteDocument`. A missing document id, path or case id changes nothing.
   * The object at the given path is removed first; when that fails the row
   * stays and so does the object. When the row delete then fails the row
   * stays without its object. On success both are gone. Rows stay backed by
   * objects when the path given is only the deleted document's own.
   */
  method DeleteDocument(db: Backend, documentId: Option<string>, path: Option<string>, caseId: Option<string>,
                        removeOk: bool, deleteOk: bool) returns (r: Outcome)
    modifies db`documents, db`blobs
    ensures !Present(documentId) || !Present(path) || !Present(caseId) ==>
      r == Failure(MissingInfo) && db.documents == old(db.documents) && db.blobs == old(db.blobs)
    ensures Present(documentId) && Present(path) && Present(caseId) ==>
      && (!removeOk ==> r == Failure(RemoveFailed) && db.documents == old(db.documents) && db.blobs == old(db.blobs))
      && (removeOk && !deleteOk ==>
            r == Failure(RowDeleteFailed) && db.documents == old(db.documents) && db.blobs == old(db.blobs) - {path.value})
      && (removeOk && deleteOk ==>
            && r == Success(Removed)
            && db.blobs == old(db.blobs) - {path.value}
            && db.documents == WithoutDocument(old(db.documents), documentId.value))
    ensures r.Success? ==> path.value !in db.blobs && forall d :: d in db.documents ==> d.id != documentId.value
    ensures && RowsBacked(old(db.documents), old(db.blobs)) && r.Success?
            && (forall k :: 0 <= k < |old(db.documents)| && old(db.documents)[k].path == path.value ==>
                  old(db.documents)[k].id == documentId.value)
            ==> RowsBacked(db.documents, db.blobs)
  {
    if !Present(documentId) || !Present(path) || !Present(caseId) {
      return Failure(MissingInfo);
    }
    if !removeOk {
      return Failure(RemoveFailed);
    }
    db.blobs := db.blobs - {path.value};
    if !deleteOk {
      return Failure(RowDeleteFailed);
    }
    ghost var before := db.documents;
    db.documents := WithoutDocument(db.documents, documentId.value);
    r := Success(Removed);
    forall k | 0 <= k < |db.documents| ensures db.documents[k] in before {
      assert db.documents[k] in db.documents;
    }
  }

  // ---------------------------------------------------------------------------
  // Listings

  /** A listed document with its download link. */
  datatype DocumentView = DocumentView(doc: Document, downloadUrl: string, caseTitle: Option<string>)

  /** `data?.signedUrl || ''`: the signed link, or the empty string when none was issued. */
  function DownloadUrl(signed: Option<string>): (r: string)
    ensures signed.Some? ==> r == signed.value
    ensures signed.None? ==> r == ""
  {
    if signed.Some? then signed.value else ""
  }

  /** The documents with their links, in the given order. */
  function WithUrls(docs: seq<Document>, sign: string -> Option<string>, title: Id -> Option<string>): (r: seq<DocumentView>)
    ensures |r| == |docs|
    ensures forall i :: 0 <= i < |r| ==>
      r[i].doc == docs[i] && r[i].downloadUrl == DownloadUrl(sign(docs[i].path)) && r[i].caseTitle == title(docs[i].caseId)
  {
    seq(|docs|, i requires 0 <= i < |docs| => DocumentView(docs[i], DownloadUrl(sign(docs[i].path)), title(docs[i].caseId)))
  }

  /** The documents attached to case `caseId`, whatever their workspace. */
  function CaseDocuments(documents: seq<Document>, caseId: Id): (r: seq<Document>)
    ensures forall d :: d in r <==> d in documents && d.caseId == caseId
    ensures multiset(r) <= multiset(documents)
  {
    Filter(documents, (d: Document) => d.caseId == caseId)
  }

  function Views(r: seq<DocumentView>): (docs: seq<Document>)
    ensures |docs| == |r| && forall i :: 0 <= i < |r| ==> docs[i] == r[i].doc
  {
    seq(|r|, i requires 0 <= i < |r| => r[i].doc)
  }

  function NoTitle(caseId: Id): Option<string> {
    None
  }

  /**
   * `getDocumentsByCaseId`: every document of the case, newest first, each
   * with its signed link or `''`. The read is not limited to the user's
   * workspace.
   */
  function GetDocumentsByCaseId(db: Backend, caseId: Id, sign: string -> Option<string>): (r: seq<DocumentView>)
    reads db
    ensures SortedDesc(Views(r), DocumentCreatedAt)
    ensures multiset(Views(r)) == multiset(CaseDocuments(db.documents, caseId))
    ensures forall i :: 0 <= i < |r| ==> r[i].downloadUrl == DownloadUrl(sign(r[i].doc.path))
  {
    var docs := SortDesc(CaseDocuments(db.documents, caseId), DocumentCreatedAt);
    var r := WithUrls(docs, sign, NoTitle);
    assert Views(r) == docs;
    r
  }

  /** The documents of workspace `ws`. */
  function WorkspaceDocuments(documents: seq<Document>, ws: Id): (r: seq<Document>)
    ensures forall d :: d in r <==> d in documents && d.workspaceId == ws
    ensures multiset(r) <= multiset(documents)
  {
    Filter(documents, (d: Document) => d.workspaceId == ws)
  }

  /** The title of the case with id `caseId` (the embedded `cases (title)`), if there is one. */
  function CaseTitle(cases: seq<Case>, caseId: Id): (r: Option<string>)
    ensures r.Some? <==> exists c :: c in cases && c.id == caseId
    ensures r.Some? ==> exists c :: c in cases && c.id == caseId && c.title == r.value
  {
    if cases == [] then None
    else if cases[0].id == caseId then Some(cases[0].title)
    else
      var r := CaseTitle(cases[1..], caseId);
      assert forall c :: c in cases[1..] ==> c in cases;
      assert forall c :: c in cases && c != cases[0] ==> c in cases[1..];
      r
  }

  /**
   * `getAllDocuments`: every document of the user's workspace, newest first,
   * each with its case's title and its signed link or `''`; nothing without
   * a workspace.
   */
  function GetAllDocuments(db: Backend, user: Option<Id>, sign: string -> Option<string>): (r: seq<DocumentView>)
    reads db
    ensures ActiveWorkspace(db.workspaces, user).None? ==> r == []
    ensures ActiveWorkspace(db.workspaces, user).Some? ==>
      && SortedDesc(Views(r), DocumentCreatedAt)
      && multiset(Views(r)) == multiset(WorkspaceDocuments(db.documents, ActiveWorkspace(db.workspaces, user).value))
    ensures forall i :: 0 <= i < |r| ==>
      r[i].downloadUrl == DownloadUrl(sign(r[i].doc.path)) && r[i].caseTitle == CaseTitle(db.cases, r[i].doc.caseId)
  {
    var ws := ActiveWorkspace(db.workspaces, user);
    if ws.None? then []
    else
      var docs := SortDesc(WorkspaceDocuments(db.documents, ws.value), DocumentCreatedAt);
      var cases := db.cases;
      var r := WithUrls(docs, sign, (id: Id) => CaseTitle(cases, id));
      assert Views(r) == docs;
      r
  }
}
