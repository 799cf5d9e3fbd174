/**
 * The client actions: the client counters, the searchable client list,
 * registering a client with its CPF/CNPJ duplicate check, editing, reading one
 * client behind a UUID shape check, and deleting.
 */
module ClientActions {
  import opened Common
  import opened Text
  import opened Seqs
  import opened Store

  const NoWorkspace := "Ambiente de trabalho não encontrado."
  const NameTooShort := "O nome é obrigatório e precisa ter pelo menos 3 caracteres."
  const LookupFailed := "Ocorreu um erro ao verificar o CPF/CNPJ."
  const DuplicateDocument := "Já existe um cliente cadastrado com este CPF/CNPJ."
  const CreateFailed := "Não foi possível cadastrar o cliente."
  const NameMissing := "O nome é obrigatório."
  const UpdateFailed := "Não foi possível atualizar os dados do cliente."
  const NoClientId := "ID do cliente não fornecido."
  const DeleteFailed := "Não foi possível excluir o cliente."
  const ClientsPage := "/dashboard/clientes"

  /** A name passes `!name || name.trim().length < 3` when present with three or more characters once trimmed. */
  predicate NameAccepted(name: Option<string>) {
    Present(name) && |Trim(name.value)| >= 3
  }

  function ClientCreatedAt(k: Client): int {
    k.createdAt
  }

  /** The clients of workspace `ws`. */
  function WorkspaceClients(clients: seq<Client>, ws: Id): (r: seq<Client>)
    ensures forall k :: k in r <==> k in clients && k.workspaceId == ws
    ensures multiset(r) <= multiset(clients)
  {
    Filter(clients, (k: Client) => k.workspaceId == ws)
  }

  // ---------------------------------------------------------------------------
  // getClientStats

  datatype ClientStats = ClientStats(totalClients: nat, newClientsThisMonth: nat, activeClients: nat)

  /** The clients of workspace `ws` created at or after `since`. */
  function ClientsSince(clients: seq<Client>, ws: Id, since: Millis): (r: seq<Client>)
    ensures forall k :: k in r <==> k in clients && k.workspaceId == ws && k.createdAt >= since
  {
    Filter(clients, (k: Client) => k.workspaceId == ws && k.createdAt >= since)
  }

  /** Every client counted as new is a client of the workspace. */
  lemma {:induction false} ClientsSinceAtMostAll(clients: seq<Client>, ws: Id, since: Millis)
    ensures |ClientsSince(clients, ws, since)| <= |WorkspaceClients(clients, ws)|
  {
    if clients != [] {
      ClientsSinceAtMostAll(clients[1..], ws, since);
    }
  }

  /** The open cases of workspace `ws`. */
  function OpenCases(cases: seq<Case>, ws: Id): (r: seq<Case>)
    ensures forall c :: c in r <==> c in cases && c.workspaceId == ws && c.status == Open
  {
    Filter(cases, (c: Case) => c.workspaceId == ws && c.status == Open)
  }

  /** `new Set(rows.map(c => c.client_id))`. */
  function ClientIdSet(cases: seq<Case>): (r: set<Id>)
    ensures forall id :: id in r <==> exists c :: c in cases && c.clientId == id
  {
    if cases == [] then {}
    else
      var rest := ClientIdSet(cases[1..]);
      assert forall c :: c in cases[1..] ==> c in cases;
      assert forall c :: c in cases ==> c == cases[0] || c in cases[1..];
      {cases[0].clientId} + rest
  }

  /** There are never more distinct client ids than cases they come from. */
  lemma {:induction false} ClientIdSetAtMostCases(cases: seq<Case>)
    ensures |ClientIdSet(cases)| <= |cases|
  {
    if cases != [] {
      ClientIdSetAtMostCases(cases[1..]);
      assert ClientIdSet(cases) == {cases[0].clientId} + ClientIdSet(cases[1..]);
    }
  }

  /**
   * `getClientStats`: the workspace's client count, how many of its clients
   * were created since the start of the month (never more than the total),
   * and how many distinct clients have an open case (never more than the open
   * cases). Zeros without a workspace.
   */
  function GetClientStats(db: Backend, user: Option<Id>, monthStart: Millis): (r: ClientStats)
    reads db
    ensures ActiveWorkspace(db.workspaces, user).None? ==> r == ClientStats(0, 0, 0)
    ensures ActiveWorkspace(db.workspaces, user).Some? ==>
      var ws := ActiveWorkspace(db.workspaces, user).value;
      && r.totalClients == |WorkspaceClients(db.clients, ws)|
      && r.newClientsThisMonth == |ClientsSince(db.clients, ws, monthStart)|
      && r.activeClients == |ClientIdSet(OpenCases(db.cases, ws))|
      && (forall id :: id in ClientIdSet(OpenCases(db.cases, ws)) <==>
            exists c :: c in db.cases && c.workspaceId == ws && c.status == Open && c.clientId == id)
    ensures r.newClientsThisMonth <= r.totalClients
    ensures ActiveWorkspace(db.workspaces, user).Some? ==>
      r.activeClients <= |OpenCases(db.cases, ActiveWorkspace(db.workspaces, user).value)|
  {
    var ws := ActiveWorkspace(db.workspaces, user);
    if ws.None? then ClientStats(0, 0, 0)
    else
      var open := OpenCases(db.cases, ws.value);
      ClientsSinceAtMostAll(db.clients, ws.value, monthStart);
      ClientIdSetAtMostCases(open);
      ClientStats(|WorkspaceClients(db.clients, ws.value)|, |ClientsSince(db.clients, ws.value, monthStart)|,
                  |ClientIdSet(open)|)
  }

  // ---------------------------------------------------------------------------
  // getClients

  /** The store's `ilike` on a nullable column: null matches no pattern. */
  predicate ColumnLike(column: Option<string>, pattern: string) {
    column.Some? && ILike(column.value, pattern)
  }

  /** The search condition of the client list, applied to the text exactly as typed. */
  predicate ClientMatches(k: Client, query: string) {
    var p := "%" + query + "%";
    ILike(k.name, p) || ColumnLike(k.email, p) || ColumnLike(k.phone, p)
  }

  /** The clients the list should show: the workspace's, narrowed by the search when one was typed. */
  predicate Listed(k: Client, ws: Id, query: Option<string>) {
    k.workspaceId == ws && (!Present(query) || ClientMatches(k, query.value))
  }

  function ListedBy(ws: Id, query: Option<string>): Client -> bool {
    (k: Client) => Listed(k, ws, query)
  }

  /**
   * `getClients`: the clients of the user's workspace, newest first, each as
   * often as it is stored; with a search, only those whose name, e-mail or
   * phone matches it. Nothing without a workspace.
   */
  function GetClients(db: Backend, user: Option<Id>, query: Option<string>): (r: seq<Client>)
    reads db
    ensures ActiveWorkspace(db.workspaces, user).None? ==> r == []
    ensures ActiveWorkspace(db.workspaces, user).Some? ==>
      && SortedDesc(r, ClientCreatedAt)
      && multiset(r) == multiset(Filter(db.clients, ListedBy(ActiveWorkspace(db.workspaces, user).value, query)))
    ensures ActiveWorkspace(db.workspaces, user).Some? && !Present(query) ==>
      multiset(r) == multiset(WorkspaceClients(db.clients, ActiveWorkspace(db.workspaces, user).value))
  {
    var ws := ActiveWorkspace(db.workspaces, user);
    if ws.None? then []
    else
      if !Present(query) then
        FilterCongruent(db.clients, ListedBy(ws.value, query), (k: Client) => k.workspaceId == ws.value);
        SortDesc(Filter(db.clients, ListedBy(ws.value, query)), ClientCreatedAt)
      else
        SortDesc(Filter(db.clients, ListedBy(ws.value, query)), ClientCreatedAt)
  }

  /**
   * For a search text without `%` or `_`, the client list keeps exactly the
   * clients whose name, e-mail or phone contains the text, ignoring case.
   */
  lemma ClientSearchIsSubstring(k: Client, query: string)
    requires NoWildcards(query)
    ensures ClientMatches(k, query) <==>
      || ContainsFolded(k.name, query)
      || (k.email.Some? && ContainsFolded(k.email.value, query))
      || (k.phone.Some? && ContainsFolded(k.phone.value, query))
  {
    ILikeSurroundedIsContainsFolded(k.name, query);
    if k.email.Some? {
      ILikeSurroundedIsContainsFolded(k.email.value, query);
    }
    if k.phone.Some? {
      ILikeSurroundedIsContainsFolded(k.phone.value, query);
    }
  }

  /**
   * The search text is not cleaned of wildcards: `_` matches any one
   * character, so searching `_` lists every client with a non-empty name.
   */
  lemma UnderscoreMatchesAnyName(k: Client)
    requires k.name != ""
    ensures ClientMatches(k, "_")
  {
    var s := Lower(k.name);
    assert "%" + "_" + "%" == "%_%";
    assert Lower("%_%") == "%_%";
    PercentMatchesAll(s[1..]);
    assert "%_%"[1..] == "_%";
    assert "_%"[1..] == "%";
    assert Like(s[1..], "%");
    assert Like(s, "_%");
  }

  // ---------------------------------------------------------------------------
  // getClientById

  predicate IsHexDigit(c: char) {
    ('0' <= c <= '9') || ('a' <= c <= 'f') || ('A' <= c <= 'F')
  }

  /** The positions of the dashes in the 8-4-4-4-12 layout. */
  predicate IsDashPosition(i: int) {
    i == 8 || i == 13 || i == 18 || i == 23
  }

  /**
   * `/^[0-9a-f]{8}-[0-9a-f]{4}-[0-9a-f]{4}-[0-9a-f]{4}-[0-9a-f]{12}$/i`:
   * 36 characters, dashes at positions 8, 13, 18 and 23, hexadecimal digits
   * of either case everywhere else.
   */
  predicate IsUuid(s: string) {
    && |s| == 36
    && forall i :: 0 <= i < |s| ==> if IsDashPosition(i) then s[i] == '-' else IsHexDigit(s[i])
  }

  /** Five groups of hexadecimal digits joined with dashes. */
  function FormatUuid(a: string, b: string, c: string, d: string, e: string): string {
    a + "-" + b + "-" + c + "-" + d + "-" + e
  }

  predicate AllHex(s: string) {
    forall i :: 0 <= i < |s| ==> IsHexDigit(s[i])
  }

  /** Any five hex groups of lengths 8, 4, 4, 4 and 12 joined with dashes pass the check. */
  lemma FormattedIsUuid(a: string, b: string, c: string, d: string, e: string)
    requires |a| == 8 && |b| == 4 && |c| == 4 && |d| == 4 && |e| == 12
    requires AllHex(a) && AllHex(b) && AllHex(c) && AllHex(d) && AllHex(e)
    ensures IsUuid(FormatUuid(a, b, c, d, e))
  {
    var s := FormatUuid(a, b, c, d, e);
    forall i | 0 <= i < 36 ensures if IsDashPosition(i) then s[i] == '-' else IsHexDigit(s[i]) {
      if i < 8 { assert s[i] == a[i]; }
      else if 8 < i < 13 { assert s[i] == b[i - 9]; }
      else if 13 < i < 18 { assert s[i] == c[i - 14]; }
      else if 18 < i < 23 { assert s[i] == d[i - 19]; }
      else if 23 < i { assert s[i] == e[i - 24]; }
    }
  }

  /** Every string that passes the check is such a formatting of its own groups. */
  lemma UuidIsFormatted(s: string)
    requires IsUuid(s)
    ensures AllHex(s[..8]) && AllHex(s[9..13]) && AllHex(s[14..18]) && AllHex(s[19..23]) && AllHex(s[24..])
    ensures s == FormatUuid(s[..8], s[9..13], s[14..18], s[19..23], s[24..])
  {
    assert s[8] == '-' && s[13] == '-' && s[18] == '-' && s[23] == '-';
    assert AllHex(s[..8]) by {
      forall i | 0 <= i < 8 ensures IsHexDigit(s[..8][i]) {
        assert !IsDashPosition(i);
      }
    }
    assert AllHex(s[9..13]) by {
      forall i | 0 <= i < 4 ensures IsHexDigit(s[9..13][i]) {
        assert !IsDashPosition(i + 9);
      }
    }
    assert AllHex(s[14..18]) by {
      forall i | 0 <= i < 4 ensures IsHexDigit(s[14..18][i]) {
        assert !IsDashPosition(i + 14);
      }
    }
    assert AllHex(s[19..23]) by {
      forall i | 0 <= i < 4 ensures IsHexDigit(s[19..23][i]) {
        assert !IsDashPosition(i + 19);
      }
    }
    assert AllHex(s[24..]) by {
      forall i | 0 <= i < 12 ensures IsHexDigit(s[24..][i]) {
        assert !IsDashPosition(i + 24);
      }
    }
  }

  /** The clients of workspace `ws` with id `id`. */
  function ClientsWithId(clients: seq<Client>, ws: Id, id: Id): (r: seq<Client>)
    ensures forall k :: k in r <==> k in clients && k.id == id && k.workspaceId == ws
  {
    Filter(clients, (k: Client) => k.id == id && k.workspaceId == ws)
  }

  /**
   * `getClientById`: nothing for an id that is empty or not UUID-shaped,
   * before the store is consulted; otherwise the client with that id in the
   * user's workspace, when exactly one matches.
   */
  function GetClientById(db: Backend, user: Option<Id>, id: Option<string>): (r: Option<Client>)
    reads db
    ensures !Present(id) || !IsUuid(id.value) ==> r.None?
    ensures r.Some? <==>
      && Present(id) && IsUuid(id.value)
      && ActiveWorkspace(db.workspaces, user).Some?
      && |ClientsWithId(db.clients, ActiveWorkspace(db.workspaces, user).value, id.value)| == 1
    ensures r.Some? ==> r.value in db.clients && r.value.id == id.value
                        && Some(r.value.workspaceId) == ActiveWorkspace(db.workspaces, user)
  {
    if !Present(id) || !IsUuid(id.value) then None
    else
      var ws := ActiveWorkspace(db.workspaces, user);
      if ws.None? then None
      else
        var found := ClientsWithId(db.clients, ws.value, id.value);
        if |found| == 1 then
          assert found[0] in found;
          Some(found[0])
        else None
  }

  // ---------------------------------------------------------------------------
  // createClient

  /** The fields of the client form; e-mail, phone and CPF/CNPJ arrive as empty text when left blank. */
  datatype ClientForm = ClientForm(
    name: Option<string>,
    email: Option<string>,
    phone: Option<string>,
    documentNumber: Option<string>)

  /** The clients of workspace `ws` registered under document number `doc`. */
  function WithDocument(clients: seq<Client>, ws: Id, doc: string): (r: seq<Client>)
    ensures forall k :: k in r <==> k in clients && k.workspaceId == ws && k.documentNumber == Some(doc)
  {
    Filter(clients, (k: Client) => k.workspaceId == ws && k.documentNumber == Some(doc))
  }

  /** No two clients of one workspace share a non-empty CPF/CNPJ. */
  predicate DocumentNumbersUnique(clients: seq<Client>) {
    forall i, j ::
      0 <= i < j < |clients| && clients[i].workspaceId == clients[j].workspaceId && Present(clients[i].documentNumber)
      ==> clients[i].documentNumber != clients[j].documentNumber
  }

  /**
   * `createClient`. A missing workspace is refused first, then a name under
   * three non-blank characters. With a CPF/CNPJ, a failed lookup or a client
   * of the workspace already holding it is refused. Refusals store nothing.
   * Otherwise one client is added to the workspace with the typed fields, so
   * a store without duplicate CPF/CNPJs within a workspace keeps that
   * property, and the action goes to the client list.
   */
  method CreateClient(db: Backend, user: Option<Id>, form: ClientForm, newId: Id, now: Millis,
                      lookupOk: bool, insertOk: bool) returns (r: Outcome)
    modifies db`clients
    ensures ActiveWorkspace(db.workspaces, user).None? ==> r == Failure(NoWorkspace) && db.clients == old(db.clients)
    ensures ActiveWorkspace(db.workspaces, user).Some? && !NameAccepted(form.name) ==>
      r == Failure(NameTooShort) && db.clients == old(db.clients)
    ensures ActiveWorkspace(db.workspaces, user).Some? && NameAccepted(form.name) && Present(form.documentNumber) ==>
      var ws := ActiveWorkspace(db.workspaces, user).value;
      && (!lookupOk ==> r == Failure(LookupFailed) && db.clients == old(db.clients))
      && (lookupOk && WithDocument(old(db.clients), ws, form.documentNumber.value) != [] ==>
            r == Failure(DuplicateDocument) && db.clients == old(db.clients))
    ensures r.Redirect? <==>
      && ActiveWorkspace(db.workspaces, user).Some? && NameAccepted(form.name) && insertOk
      && (Present(form.documentNumber) ==>
            lookupOk && WithDocument(old(db.clients), ActiveWorkspace(db.workspaces, user).value, form.documentNumber.value) == [])
    ensures r.Redirect? ==>
      && r.path == ClientsPage
      && db.clients == old(db.clients) + [Client(newId, ActiveWorkspace(db.workspaces, user).value, form.name.value,
                                                 form.email, form.phone, form.documentNumber, now, now)]
    ensures !r.Redirect? ==> db.clients == old(db.clients)
    ensures DocumentNumbersUnique(old(db.clients)) ==> DocumentNumbersUnique(db.clients)
  {
    var ws := ActiveWorkspace(db.workspaces, user);
    if ws.None? {
      return Failure(NoWorkspace);
    }
    if !NameAccepted(form.name) {
      return Failure(NameTooShort);
    }
    if Present(form.documentNumber) {
      if !lookupOk {
        return Failure(LookupFailed);
      }
      var existing := Take(WithDocument(db.clients, ws.value, form.documentNumber.value), 1);
      if |existing| > 0 {
        return Failure(DuplicateDocument);
      }
    }
    if !insertOk {
      return Failure(CreateFailed);
    }
    var row := Client(newId, ws.value, form.name.value, form.email, form.phone, form.documentNumber, now, now);
    AppendKeepsUnique(db.clients, row);
    db.clients := db.clients + [row];
    r := Redirect(ClientsPage);
  }

  /** Adding a client whose CPF/CNPJ is blank or not yet used in its workspace keeps the numbers unique. */
  lemma AppendKeepsUnique(clients: seq<Client>, row: Client)
    requires Present(row.documentNumber) ==> WithDocument(clients, row.workspaceId, row.documentNumber.value) == []
    ensures DocumentNumbersUnique(clients) ==> DocumentNumbersUnique(clients + [row])
  {
    if DocumentNumbersUnique(clients) {
      var all := clients + [row];
      forall i, j | 0 <= i < j < |all| && all[i].workspaceId == all[j].workspaceId && Present(all[i].documentNumber)
        ensures all[i].documentNumber != all[j].documentNumber
      {
        if j == |clients| {
          assert all[i] in clients;
          assert all[i] in WithDocument(clients, all[i].workspaceId, all[i].documentNumber.value);
        }
      }
    }
  }

  // ---------------------------------------------------------------------------
  // updateClient

  /** The fields of the edit-client form. */
  datatype ClientEdit = ClientEdit(clientId: Option<string>, form: ClientForm)

  /** A client after an edit: name and contact fields replaced; id, workspace and timestamps kept. */
  function ReviseClient(k: Client, edit: ClientEdit): (r: Client)
    requires edit.form.name.Some?
    ensures r.id == k.id && r.workspaceId == k.workspaceId
    ensures r.createdAt == k.createdAt && r.updatedAt == k.updatedAt
    ensures r.name == edit.form.name.value && r.documentNumber == edit.form.documentNumber
    ensures r.email == edit.form.email && r.phone == edit.form.phone
  {
    k.(name := edit.form.name.value, email := edit.form.email, phone := edit.form.phone,
       documentNumber := edit.form.documentNumber)
  }

  /** Every client whose id equals the form's id revised, the others unchanged. */
  function ReviseClients(clients: seq<Client>, edit: ClientEdit): (r: seq<Client>)
    requires edit.form.name.Some?
    ensures |r| == |clients|
    ensures forall i :: 0 <= i < |r| ==>
      r[i] == if Some(clients[i].id) == edit.clientId then ReviseClient(clients[i], edit) else clients[i]
  {
    seq(|clients|, i requires 0 <= i < |clients| =>
          if Some(clients[i].id) == edit.clientId then ReviseClient(clients[i], edit) else clients[i])
  }

  /**
   * `updateClient`: a name under three non-blank characters is refused;
   * otherwise the client with the form's id is revised, with no check of its
   * CPF/CNPJ against the others, and the action goes to that client's page.
   */
  method UpdateClient(db: Backend, edit: ClientEdit, updateOk: bool) returns (r: Outcome)
    modifies db`clients
    ensures !NameAccepted(edit.form.name) ==> r == Failure(NameMissing) && db.clients == old(db.clients)
    ensures NameAccepted(edit.form.name) && !updateOk ==> r == Failure(UpdateFailed) && db.clients == old(db.clients)
    ensures NameAccepted(edit.form.name) && updateOk ==>
      && db.clients == ReviseClients(old(db.clients), edit)
      && r == Redirect(ClientsPage + "/" + (if edit.clientId.Some? then edit.clientId.value else "null"))
  {
    if !NameAccepted(edit.form.name) {
      return Failure(NameMissing);
    }
    if !updateOk {
      return Failure(UpdateFailed);
    }
    db.clients := ReviseClients(db.clients, edit);
    r := Redirect(ClientsPage + "/" + (if edit.clientId.Some? then edit.clientId.value else "null"));
  }

  /**
   * Because the edit re-checks nothing, it can give a client the CPF/CNPJ of
   * another client of the same workspace: uniqueness is kept by registration
   * only.
   */
  lemma EditCanDuplicateDocument()
    ensures var a := Client("a", "w", "Ana", None, None, Some("123"), 0, 0);
            var b := Client("b", "w", "Bia", None, None, Some("456"), 0, 0);
            var edit := ClientEdit(Some("b"), ClientForm(Some("Bia"), None, None, Some("123")));
            DocumentNumbersUnique([a, b]) && !DocumentNumbersUnique(ReviseClients([a, b], edit))
  {
    var a := Client("a", "w", "Ana", None, None, Some("123"), 0, 0);
    var b := Client("b", "w", "Bia", None, None, Some("456"), 0, 0);
    var edit := ClientEdit(Some("b"), ClientForm(Some("Bia"), None, None, Some("123")));
    var after := ReviseClients([a, b], edit);
    assert after[0] == a;
    assert after[1].documentNumber == Some("123");
  }

  // ---------------------------------------------------------------------------
  // deleteClient

  /** The clients without the one(s) carrying `id`. */
  function WithoutClient(clients: seq<Client>, id: Id): (r: seq<Client>)
    ensures forall k :: k in r <==> k in clients && k.id != id
    ensures multiset(r) <= multiset(clients)
  {
    Filter(clients, (k: Client) => k.id != id)
  }

  /**
   * `deleteClient`: an empty id is refused and nothing is deleted; otherwise
   * the client with that id is removed, in whatever workspace it is, and the
   * action goes to the client list.
   */
  method DeleteClient(db: Backend, clientId: Option<string>, deleteOk: bool) returns (r: Outcome)
    modifies db`clients
    ensures !Present(clientId) ==> r == Failure(NoClientId) && db.clients == old(db.clients)
    ensures Present(clientId) && !deleteOk ==> r == Failure(DeleteFailed) && db.clients == old(db.clients)
    ensures Present(clientId) && deleteOk ==>
      r == Redirect(ClientsPage) && db.clients == WithoutClient(old(db.clients), clientId.value)
  {
    if !Present(clientId) {
      return Failure(NoClientId);
    }
    if !deleteOk {
      return Failure(DeleteFailed);
    }
    db.clients := WithoutClient(db.clients, clientId.value);
    r := Redirect(ClientsPage);
  }
}
