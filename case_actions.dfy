/**
 * The case actions: opening, editing and deleting a case, reading one case,
 * a client's cases, the searchable case list and the per-status counts.
 */
module CaseActions {
  import opened Common
  import opened Text
  import opened Seqs
  import opened Store

  const NoWorkspace := "Ambiente de trabalho não encontrado."
  const NoClient := "Cliente não especificado."
  const TitleTooShort := "O título é obrigatório e precisa ter pelo menos 3 caracteres."
  const CreateFailed := "Não foi possível cadastrar o caso."
  const TitleMissing := "O título é obrigatório."
  const UpdateFailed := "Não foi possível atualizar o caso."
  const DeleteFailed := "Não foi possível excluir o caso."
  const Deleted := "Caso excluído com sucesso."

  /** A title passes the check `!title || title.trim().length < 3` when it is present and has three or more characters once trimmed. */
  predicate TitleAccepted(title: Option<string>) {
    Present(title) && |Trim(title.value)| >= 3
  }

  /** `deadline || null`: the date typed in, as the store reads it, or null when the field is empty. */
  function DeadlineValue(field: Option<string>, parseDate: string -> Millis): Option<Millis> {
    if Present(field) then Some(parseDate(field.value)) else None
  }

  /** `status || 'open'`; `None` is a missing or empty field. */
  function StatusOrOpen(field: Option<Status>): Status {
    if field.Some? then field.value else Open
  }

  /** The path a client's page has; a missing id prints as `null` in the template. */
  function ClientPage(clientId: Option<string>): string {
    "/dashboard/clientes/" + (if clientId.Some? then clientId.value else "null")
  }

  function CaseCreatedAt(c: Case): int {
    c.createdAt
  }

  /** A case as the reads return it: the row, with its client's name embedded (`clients (name)`). */
  datatype CaseView = CaseView(row: Case, clientName: Option<string>)

  /**
   * The embedded `clients (name)`: the name of the client with id
   * `clientId`, or `null` when no client has that id.
   */
  function ClientName(clients: seq<Client>, clientId: Id): (r: Option<string>)
    ensures r.Some? <==> exists k :: k in clients && k.id == clientId
    ensures r.Some? ==> exists k :: k in clients && k.id == clientId && k.name == r.value
  {
    if clients == [] then None
    else if clients[0].id == clientId then Some(clients[0].name)
    else
      var r := ClientName(clients[1..], clientId);
      assert forall k :: k in clients[1..] ==> k in clients;
      assert forall k :: k in clients && k != clients[0] ==> k in clients[1..];
      r
  }

  /** The case with its client's name embedded. */
  function WithClientName(c: Case, clients: seq<Client>): CaseView {
    CaseView(c, ClientName(clients, c.clientId))
  }

  /** Every case of `cs`, in order, with its client's name embedded. */
  function WithClientNames(cs: seq<Case>, clients: seq<Client>): (r: seq<CaseView>)
    ensures |r| == |cs| && forall i :: 0 <= i < |r| ==> r[i] == WithClientName(cs[i], clients)
  {
    seq(|cs|, i requires 0 <= i < |cs| => WithClientName(cs[i], clients))
  }

  /** The rows of a list of views, in order. */
  function Rows(r: seq<CaseView>): (cs: seq<Case>)
    ensures |cs| == |r| && forall i :: 0 <= i < |r| ==> cs[i] == r[i].row
  {
    seq(|r|, i requires 0 <= i < |r| => r[i].row)
  }

  // ---------------------------------------------------------------------------
  // createCase

  /** The fields of the new-case form; `status` is `None` when the field is missing or empty. */
  datatype NewCaseForm = NewCaseForm(
    clientId: Option<string>,
    title: Option<string>,
    description: Option<string>,
    status: Option<Status>,
    caseNumber: Option<string>,
    deadline: Option<string>)

  /**
   * `createCase`. The checks run in order: a workspace, a client, a title of
   * at least three non-blank characters; each failure leaves the cases as
   * they were. A valid form inserts one case in the user's workspace for the
   * chosen client, `open` when no status was sent and without a deadline when
   * none was typed, and goes to the client's page; a refused insert reports
   * failure and stores nothing.
   */
  method CreateCase(db: Backend, user: Option<Id>, form: NewCaseForm, newId: Id, now: Millis,
                    parseDate: string -> Millis, insertOk: bool) returns (r: Outcome)
    modifies db`cases
    ensures ActiveWorkspace(db.workspaces, user).None? ==> r == Failure(NoWorkspace) && db.cases == old(db.cases)
    ensures ActiveWorkspace(db.workspaces, user).Some? && !Present(form.clientId) ==>
      r == Failure(NoClient) && db.cases == old(db.cases)
    ensures ActiveWorkspace(db.workspaces, user).Some? && Present(form.clientId) && !TitleAccepted(form.title) ==>
      r == Failure(TitleTooShort) && db.cases == old(db.cases)
    ensures ActiveWorkspace(db.workspaces, user).Some? && Present(form.clientId) && TitleAccepted(form.title) ==>
      if insertOk then
        && db.cases == old(db.cases) + [Case(newId, ActiveWorkspace(db.workspaces, user).value, form.clientId.value,
                                             form.title.value, form.description, StatusOrOpen(form.status),
                                             form.caseNumber, DeadlineValue(form.deadline, parseDate), now, now)]
        && r == Redirect(ClientPage(form.clientId))
      else r == Failure(CreateFailed) && db.cases == old(db.cases)
  {
    var ws := ActiveWorkspace(db.workspaces, user);
    if ws.None? {
      return Failure(NoWorkspace);
    }
    if !Present(form.clientId) {
      return Failure(NoClient);
    }
    if !TitleAccepted(form.title) {
      return Failure(TitleTooShort);
    }
    if !insertOk {
      return Failure(CreateFailed);
    }
    var row := Case(newId, ws.value, form.clientId.value, form.title.value, form.description,
                    StatusOrOpen(form.status), form.caseNumber, DeadlineValue(form.deadline, parseDate), now, now);
    db.cases := db.cases + [row];
    r := Redirect(ClientPage(form.clientId));
  }

  // ---------------------------------------------------------------------------
  // updateCase

  /** The fields of the edit-case form. */
  datatype CaseEdit = CaseEdit(
    caseId: Id,
    clientId: Option<string>,
    title: Option<string>,
    description: Option<string>,
    caseNumber: Option<string>,
    status: Status,
    deadline: Option<string>)

  /**
   * A case after an edit: the edited columns replaced, while its id,
   * workspace, client and both timestamps stay as they were (the action
   * writes no `updated_at`).
   */
  function Revised(c: Case, edit: CaseEdit, parseDate: string -> Millis): (r: Case)
    requires edit.title.Some?
    ensures r.id == c.id && r.workspaceId == c.workspaceId && r.clientId == c.clientId
    ensures r.createdAt == c.createdAt && r.updatedAt == c.updatedAt
    ensures r.title == edit.title.value && r.status == edit.status
    ensures r.description == edit.description && r.caseNumber == edit.caseNumber
    ensures r.deadline.Some? <==> Present(edit.deadline)
    ensures Present(edit.deadline) ==> r.deadline == Some(parseDate(edit.deadline.value))
  {
    c.(title := edit.title.value, description := edit.description, caseNumber := edit.caseNumber,
       status := edit.status, deadline := DeadlineValue(edit.deadline, parseDate))
  }

  /**
   * `updateCase`. A title that is missing or under three non-blank characters
   * is refused. Otherwise every case whose id matches is revised, whatever
   * workspace it belongs to, and every other case is left alone; the action
   * then goes to the page of the client named in the form.
   */
  method UpdateCase(db: Backend, edit: CaseEdit, parseDate: string -> Millis, updateOk: bool) returns (r: Outcome)
    modifies db`cases
    ensures !TitleAccepted(edit.title) ==> r == Failure(TitleMissing) && db.cases == old(db.cases)
    ensures TitleAccepted(edit.title) && !updateOk ==> r == Failure(UpdateFailed) && db.cases == old(db.cases)
    ensures TitleAccepted(edit.title) && updateOk ==>
      && r == Redirect(ClientPage(edit.clientId))
      && |db.cases| == |old(db.cases)|
      && forall i :: 0 <= i < |db.cases| ==>
           db.cases[i] == if old(db.cases[i]).id == edit.caseId then Revised(old(db.cases[i]), edit, parseDate)
                          else old(db.cases[i])
  {
    if !TitleAccepted(edit.title) {
      return Failure(TitleMissing);
    }
    if !updateOk {
      return Failure(UpdateFailed);
    }
    var cases := db.cases;
    db.cases := seq(|cases|, i requires 0 <= i < |cases| =>
                      if cases[i].id == edit.caseId then Revised(cases[i], edit, parseDate) else cases[i]);
    r := Redirect(ClientPage(edit.clientId));
  }

  // ---------------------------------------------------------------------------
  // deleteCase

  /** The cases without the one(s) carrying `id`. */
  function WithoutCase(cases: seq<Case>, id: Id): (r: seq<Case>)
    ensures forall c :: c in r <==> c in cases && c.id != id
    ensures multiset(r) <= multiset(cases)
  {
    Filter(cases, (c: Case) => c.id != id)
  }

  /**
   * `deleteCase`: removes the case with the given id, in whatever workspace it
   * is, and reports success; a refused delete reports failure and removes
   * nothing.
   */
  method DeleteCase(db: Backend, caseId: Id, deleteOk: bool) returns (r: Outcome)
    modifies db`cases
    ensures !deleteOk ==> r == Failure(DeleteFailed) && db.cases == old(db.cases)
    ensures deleteOk ==> r == Success(Deleted) && db.cases == WithoutCase(old(db.cases), caseId)
  {
    if !deleteOk {
      return Failure(DeleteFailed);
    }
    db.cases := WithoutCase(db.cases, caseId);
    r := Success(Deleted);
  }

  // ---------------------------------------------------------------------------
  // Reads

  /** The cases of workspace `ws` with id `id`. */
  function CasesWithId(cases: seq<Case>, ws: Id, id: Id): (r: seq<Case>)
    ensures forall c :: c in r <==> c in cases && c.id == id && c.workspaceId == ws
  {
    Filter(cases, (c: Case) => c.id == id && c.workspaceId == ws)
  }

  /**
   * `getCaseById`: the case with this id in the user's workspace. The lookup
   * asks for a single row, so there is an answer exactly when the user has a
   * workspace and exactly one of its cases has the id; the case comes with
   * its client's name.
   */
  function GetCaseById(db: Backend, user: Option<Id>, caseId: Id): (r: Option<CaseView>)
    reads db
    ensures r.Some? <==> ActiveWorkspace(db.workspaces, user).Some?
                         && |CasesWithId(db.cases, ActiveWorkspace(db.workspaces, user).value, caseId)| == 1
    ensures r.Some? ==> r.value.row in db.cases && r.value.row.id == caseId
                        && Some(r.value.row.workspaceId) == ActiveWorkspace(db.workspaces, user)
    ensures r.Some? ==> r.value.clientName == ClientName(db.clients, r.value.row.clientId)
  {
    var ws := ActiveWorkspace(db.workspaces, user);
    if ws.None? then None
    else
      var found := CasesWithId(db.cases, ws.value, caseId);
      if |found| == 1 then
        assert found[0] in found;
        Some(WithClientName(found[0], db.clients))
      else None
  }

  /** The cases of workspace `ws` that belong to client `clientId`. */
  function ClientCases(cases: seq<Case>, ws: Id, clientId: Id): (r: seq<Case>)
    ensures forall c :: c in r <==> c in cases && c.workspaceId == ws && c.clientId == clientId
    ensures multiset(r) <= multiset(cases)
  {
    Filter(cases, (c: Case) => c.workspaceId == ws && c.clientId == clientId)
  }

  /**
   * `getCasesByClientId`: every case of the client in the user's workspace,
   * newest first, each as often as it is stored and with the client's name;
   * nothing without a workspace.
   */
  function GetCasesByClientId(db: Backend, user: Option<Id>, clientId: Id): (r: seq<CaseView>)
    reads db
    ensures ActiveWorkspace(db.workspaces, user).None? ==> r == []
    ensures ActiveWorkspace(db.workspaces, user).Some? ==>
      && SortedDesc(Rows(r), CaseCreatedAt)
      && multiset(Rows(r)) == multiset(ClientCases(db.cases, ActiveWorkspace(db.workspaces, user).value, clientId))
    ensures forall c :: c in Rows(r) ==> c in db.cases && c.clientId == clientId
    ensures forall i :: 0 <= i < |r| ==> r[i].clientName == ClientName(db.clients, clientId)
  {
    var ws := ActiveWorkspace(db.workspaces, user);
    if ws.None? then []
    else
      var cs := SortedClientCases(db.cases, ws.value, clientId);
      var r := WithClientNames(cs, db.clients);
      assert Rows(r) == cs;
      r
  }

  /** The client's cases in workspace `ws`, newest first. */
  function SortedClientCases(cases: seq<Case>, ws: Id, clientId: Id): (r: seq<Case>)
    ensures SortedDesc(r, CaseCreatedAt) && multiset(r) == multiset(ClientCases(cases, ws, clientId))
    ensures forall c :: c in r ==> c in cases && c.clientId == clientId
  {
    var r := SortDesc(ClientCases(cases, ws, clientId), CaseCreatedAt);
    assert forall c :: c in r ==> c in multiset(r);
    r
  }

  // ---------------------------------------------------------------------------
  // getAllCases: the search

  /** One disjunct of the `or` filter the search sends to the store. */
  datatype Clause =
    | TitleLike(pattern: string)
    | CaseNumberLike(pattern: string)
    | ClientIdIn(ids: seq<Id>)

  /** The store's reading of one disjunct; a null case number matches no pattern. */
  predicate ClauseHolds(c: Case, clause: Clause) {
    match clause
    case TitleLike(p) => ILike(c.title, p)
    case CaseNumberLike(p) => c.caseNumber.Some? && ILike(c.caseNumber.value, p)
    case ClientIdIn(ids) => c.clientId in ids
  }

  /** The filter of a case listing: its workspace, and the `or` of clauses when a search was given. */
  datatype CaseFilter = CaseFilter(workspaceId: Id, anyOf: Option<seq<Clause>>)

  predicate Selects(f: CaseFilter, c: Case) {
    && c.workspaceId == f.workspaceId
    && (f.anyOf.None? || exists k | 0 <= k < |f.anyOf.value| :: ClauseHolds(c, f.anyOf.value[k]))
  }

  /** `%q%`. */
  function Surround(q: string): string {
    "%" + q + "%"
  }

  /** The clients of the workspace whose name matches `pattern` (the search's sub-query). */
  function MatchingClients(clients: seq<Client>, ws: Id, pattern: string): (r: seq<Client>)
    ensures forall k :: k in r <==> k in clients && k.workspaceId == ws && ILike(k.name, pattern)
  {
    Filter(clients, (k: Client) => k.workspaceId == ws && ILike(k.name, pattern))
  }

  /** The ids of the clients of the workspace whose name matches `pattern`. */
  function MatchingClientIds(clients: seq<Client>, ws: Id, pattern: string): (ids: seq<Id>)
    ensures forall id :: id in ids <==>
      exists k :: k in clients && k.workspaceId == ws && ILike(k.name, pattern) && k.id == id
  {
    IdsOf(MatchingClients(clients, ws, pattern))
  }

  /** `clients.map(c => c.id)`. */
  function IdsOf(m: seq<Client>): (ids: seq<Id>)
    ensures forall id :: id in ids <==> exists k :: k in m && k.id == id
  {
    var ids := seq(|m|, i requires 0 <= i < |m| => m[i].id);
    assert forall id :: id in ids ==> exists i :: 0 <= i < |m| && m[i].id == id;
    assert forall k :: k in m ==> k.id in ids by {
      forall k | k in m ensures k.id in ids {
        var i :| 0 <= i < |m| && m[i] == k;
        assert ids[i] == k.id;
      }
    }
    ids
  }

  /**
   * What a search for the wildcard-free text `q` means for one case. With a
   * comma, `q` is a list of title fragments and the case's title must contain
   * one of them. Without, the case's title, its case number or the name of
   * its client must contain `q`. Letter case is ignored throughout.
   */
  predicate SearchHit(c: Case, clients: seq<Client>, ws: Id, q: string) {
    if ',' in q then
      exists t :: t in CommaTerms(q) && ContainsFolded(c.title, t)
    else
      || ContainsFolded(c.title, q)
      || (c.caseNumber.Some? && ContainsFolded(c.caseNumber.value, q))
      || exists k :: k in clients && k.workspaceId == ws && k.id == c.clientId && ContainsFolded(k.name, q)
  }

  /** The cases the listing should show: the workspace's, narrowed by the search when one was typed. */
  predicate Wanted(c: Case, clients: seq<Client>, ws: Id, query: Option<string>) {
    c.workspaceId == ws && (!Present(query) || SearchHit(c, clients, ws, StripWildcards(query.value)))
  }

  function WantedBy(clients: seq<Client>, ws: Id, query: Option<string>): Case -> bool {
    (c: Case) => Wanted(c, clients, ws, query)
  }

  /** The cases a search should return, in table order. */
  function SearchResults(cases: seq<Case>, clients: seq<Client>, ws: Id, query: Option<string>): (r: seq<Case>)
    ensures forall c :: c in r <==> c in cases && Wanted(c, clients, ws, query)
    ensures multiset(r) <= multiset(cases)
  {
    Filter(cases, WantedBy(clients, ws, query))
  }

  /**
   * The filter `getAllCases` builds. Without a search it only restricts to the
   * workspace. Otherwise the wildcards are dropped from the search text; text
   * with a comma becomes one title clause per non-empty trimmed term, in the
   * order typed; text without one becomes a title clause, a case-number clause
   * and, only when some client's name matches, a client clause. Whatever the
   * text, the filter selects exactly the cases `Wanted` describes.
   */
  method BuildCaseFilter(clients: seq<Client>, ws: Id, query: Option<string>) returns (f: CaseFilter)
    ensures f.workspaceId == ws
    ensures f.anyOf.None? <==> !Present(query)
    ensures forall c :: Selects(f, c) <==> Wanted(c, clients, ws, query)
    ensures Present(query) && ',' in StripWildcards(query.value) ==>
      f.anyOf == Some(TitleClauses(CommaTerms(StripWildcards(query.value))))
    ensures Present(query) && ',' !in StripWildcards(query.value) ==>
      var pattern := Surround(StripWildcards(query.value));
      f.anyOf == Some(SearchClauses(pattern, MatchingClientIds(clients, ws, pattern)))
  {
    if !Present(query) {
      return CaseFilter(ws, None);
    }
    var cleaned := StripWildcards(query.value);
    if ',' in cleaned {
      f := CaseFilter(ws, Some(TitleClauses(CommaTerms(cleaned))));
      TermFilterMeaning(clients, ws, query, f);
    } else {
      var pattern := Surround(cleaned);
      f := CaseFilter(ws, Some(SearchClauses(pattern, MatchingClientIds(clients, ws, pattern))));
      PlainFilterMeaning(clients, ws, query, f);
    }
  }

  /** One title clause per term, in the order of the terms. */
  function TitleClauses(terms: seq<string>): (r: seq<Clause>)
    ensures |r| == |terms|
    ensures forall k :: 0 <= k < |r| ==> r[k] == TitleLike(Surround(terms[k]))
  {
    seq(|terms|, k requires 0 <= k < |terms| => TitleLike(Surround(terms[k])))
  }

  /**
   * The clauses of a comma-free search: title, then case number, then the
   * client clause, which is left out when no client matched.
   */
  function SearchClauses(pattern: string, ids: seq<Id>): (r: seq<Clause>)
    ensures 2 <= |r| <= 3 && r[0] == TitleLike(pattern) && r[1] == CaseNumberLike(pattern)
    ensures |r| == 3 <==> ids != []
    ensures |r| == 3 ==> r[2] == ClientIdIn(ids)
  {
    [TitleLike(pattern), CaseNumberLike(pattern)] + if |ids| > 0 then [ClientIdIn(ids)] else []
  }

  /** The title clauses built from comma-separated terms select the cases whose title contains a term. */
  lemma TermFilterMeaning(clients: seq<Client>, ws: Id, query: Option<string>, f: CaseFilter)
    requires Present(query) && ',' in StripWildcards(query.value)
    requires f == CaseFilter(ws, Some(TitleClauses(CommaTerms(StripWildcards(query.value)))))
    ensures forall c :: Selects(f, c) <==> Wanted(c, clients, ws, query)
  {
    var cleaned := StripWildcards(query.value);
    var terms := CommaTerms(cleaned);
    forall c ensures Selects(f, c) <==> Wanted(c, clients, ws, query) {
      TermClausesMeaning(c, cleaned, terms, f.anyOf.value);
    }
  }

  /** One case against the title clauses of the terms of `cleaned`. */
  lemma TermClausesMeaning(c: Case, cleaned: string, terms: seq<string>, clauses: seq<Clause>)
    requires NoWildcards(cleaned) && terms == CommaTerms(cleaned) && clauses == TitleClauses(terms)
    ensures (exists k | 0 <= k < |clauses| :: ClauseHolds(c, clauses[k]))
            <==> exists t :: t in terms && ContainsFolded(c.title, t)
  {
    if exists t :: t in terms && ContainsFolded(c.title, t) {
      var t :| t in terms && ContainsFolded(c.title, t);
      var k :| 0 <= k < |terms| && terms[k] == t;
      TermClauseHolds(c, cleaned, terms, clauses, k);
    }
    if exists k | 0 <= k < |clauses| :: ClauseHolds(c, clauses[k]) {
      var k :| 0 <= k < |clauses| && ClauseHolds(c, clauses[k]);
      TermClauseHolds(c, cleaned, terms, clauses, k);
      assert terms[k] in terms;
    }
  }

  /** The `k`-th title clause holds exactly when the title contains the `k`-th term, ignoring case. */
  lemma TermClauseHolds(c: Case, cleaned: string, terms: seq<string>, clauses: seq<Clause>, k: int)
    requires NoWildcards(cleaned) && terms == CommaTerms(cleaned) && clauses == TitleClauses(terms)
    requires 0 <= k < |terms|
    ensures k < |clauses| && (ClauseHolds(c, clauses[k]) <==> ContainsFolded(c.title, terms[k]))
  {
    NoWildcardsOfContains(cleaned, terms[k]);
    ILikeSurroundedIsContainsFolded(c.title, terms[k]);
  }

  /** A filter of two or three clauses holds when one of them does. */
  lemma SelectsOfFew(f: CaseFilter, c: Case)
    requires f.anyOf.Some? && 2 <= |f.anyOf.value| <= 3
    ensures var cl := f.anyOf.value;
      Selects(f, c) <==>
        (c.workspaceId == f.workspaceId && (ClauseHolds(c, cl[0]) || ClauseHolds(c, cl[1]) || (|cl| == 3 && ClauseHolds(c, cl[2]))))
  {
    var cl := f.anyOf.value;
    if c.workspaceId == f.workspaceId && (exists k | 0 <= k < |cl| :: ClauseHolds(c, cl[k])) {
      var k :| 0 <= k < |cl| && ClauseHolds(c, cl[k]);
      assert k == 0 || k == 1 || k == 2;
    }
  }

  /**
   * The title, case-number and client clauses built from comma-free text
   * select the cases whose title, case number or client's name contains it.
   */
  lemma PlainFilterMeaning(clients: seq<Client>, ws: Id, query: Option<string>, f: CaseFilter)
    requires Present(query) && ',' !in StripWildcards(query.value)
    requires var pattern := Surround(StripWildcards(query.value));
      f == CaseFilter(ws, Some(SearchClauses(pattern, MatchingClientIds(clients, ws, pattern))))
    ensures forall c :: Selects(f, c) <==> Wanted(c, clients, ws, query)
  {
    forall c ensures Selects(f, c) <==> Wanted(c, clients, ws, query) {
      PlainFilterSelects(clients, ws, query, f, c);
    }
  }

  /** `PlainFilterMeaning` for one case. */
  lemma PlainFilterSelects(clients: seq<Client>, ws: Id, query: Option<string>, f: CaseFilter, c: Case)
    requires Present(query) && ',' !in StripWildcards(query.value)
    requires var pattern := Surround(StripWildcards(query.value));
      f == CaseFilter(ws, Some(SearchClauses(pattern, MatchingClientIds(clients, ws, pattern))))
    ensures Selects(f, c) <==> Wanted(c, clients, ws, query)
  {
    var cleaned := StripWildcards(query.value);
    var pattern := Surround(cleaned);
    var ids := MatchingClientIds(clients, ws, pattern);
    var clauses := f.anyOf.value;
    SelectsOfFew(f, c);
    ILikeSurroundedIsContainsFolded(c.title, cleaned);
    if c.caseNumber.Some? {
      ILikeSurroundedIsContainsFolded(c.caseNumber.value, cleaned);
    }
    ClientMatchIff(clients, ws, cleaned, c.clientId);
    assert |clauses| == 3 ==> clauses[2] == ClientIdIn(ids);
  }

  /** A client id is among the matching ones exactly when a client of the workspace with that id has a matching name. */
  lemma ClientMatchIff(clients: seq<Client>, ws: Id, cleaned: string, id: Id)
    requires NoWildcards(cleaned)
    ensures id in MatchingClientIds(clients, ws, Surround(cleaned)) <==>
      exists k :: k in clients && k.workspaceId == ws && k.id == id && ContainsFolded(k.name, cleaned)
  {
    var ids := MatchingClientIds(clients, ws, Surround(cleaned));
    if exists k :: k in clients && k.workspaceId == ws && k.id == id && ContainsFolded(k.name, cleaned) {
      var k :| k in clients && k.workspaceId == ws && k.id == id && ContainsFolded(k.name, cleaned);
      ILikeSurroundedIsContainsFolded(k.name, cleaned);
    }
    if id in ids {
      var k :| k in clients && k.workspaceId == ws && ILike(k.name, Surround(cleaned)) && k.id == id;
      ILikeSurroundedIsContainsFolded(k.name, cleaned);
    }
  }


  /**
   * `getAllCases`: the cases of the user's workspace that match the search,
   * newest first, each as often as it is stored and with its client's name;
   * nothing without a workspace.
   */
  method GetAllCases(db: Backend, user: Option<Id>, query: Option<string>) returns (rows: seq<CaseView>)
    ensures ActiveWorkspace(db.workspaces, user).None? ==> rows == []
    ensures ActiveWorkspace(db.workspaces, user).Some? ==>
      && SortedDesc(Rows(rows), CaseCreatedAt)
      && multiset(Rows(rows)) == multiset(SearchResults(db.cases, db.clients, ActiveWorkspace(db.workspaces, user).value, query))
    ensures forall i :: 0 <= i < |rows| ==> rows[i].clientName == ClientName(db.clients, rows[i].row.clientId)
  {
    var ws := ActiveWorkspace(db.workspaces, user);
    if ws.None? {
      return [];
    }
    var f := BuildCaseFilter(db.clients, ws.value, query);
    var selected := Filter(db.cases, (c: Case) => Selects(f, c));
    FilterCongruent(db.cases, (c: Case) => Selects(f, c), WantedBy(db.clients, ws.value, query));
    var sorted := SortDesc(selected, CaseCreatedAt);
    rows := WithClientNames(sorted, db.clients);
    assert Rows(rows) == sorted;
  }

  // ---------------------------------------------------------------------------
  // getCaseStats

  /** The per-status counts the dashboard shows. */
  datatype CaseStats = CaseStats(openCases: nat, pendingCases: nat, closedCases: nat)

  /** The cases of workspace `ws`. */
  function WorkspaceCases(cases: seq<Case>, ws: Id): (r: seq<Case>)
    ensures forall c :: c in r <==> c in cases && c.workspaceId == ws
  {
    Filter(cases, (c: Case) => c.workspaceId == ws)
  }

  /** The cases of workspace `ws` with status `s`. */
  function WithStatus(cases: seq<Case>, ws: Id, s: Status): (r: seq<Case>)
    ensures forall c :: c in r <==> c in cases && c.workspaceId == ws && c.status == s
  {
    Filter(cases, (c: Case) => c.workspaceId == ws && c.status == s)
  }

  /** Every case of a workspace is counted under exactly one status. */
  lemma {:induction false} StatusCountsPartition(cases: seq<Case>, ws: Id)
    ensures |WithStatus(cases, ws, Open)| + |WithStatus(cases, ws, Pending)| + |WithStatus(cases, ws, Closed)|
            == |WorkspaceCases(cases, ws)|
  {
    if cases != [] {
      StatusCountsPartition(cases[1..], ws);
    }
  }

  /**
   * `getCaseStats`: how many cases of the user's workspace are open, pending
   * and closed; together they are all of the workspace's cases. Zeros without
   * a workspace.
   */
  function GetCaseStats(db: Backend, user: Option<Id>): (r: CaseStats)
    reads db
    ensures ActiveWorkspace(db.workspaces, user).None? ==> r == CaseStats(0, 0, 0)
    ensures ActiveWorkspace(db.workspaces, user).Some? ==>
      var ws := ActiveWorkspace(db.workspaces, user).value;
      && r.openCases == |WithStatus(db.cases, ws, Open)|
      && r.pendingCases == |WithStatus(db.cases, ws, Pending)|
      && r.closedCases == |WithStatus(db.cases, ws, Closed)|
      && r.openCases + r.pendingCases + r.closedCases == |WorkspaceCases(db.cases, ws)|
  {
    var ws := ActiveWorkspace(db.workspaces, user);
    if ws.None? then CaseStats(0, 0, 0)
    else
      StatusCountsPartition(db.cases, ws.value);
      CaseStats(|WithStatus(db.cases, ws.value, Open)|, |WithStatus(db.cases, ws.value, Pending)|,
                |WithStatus(db.cases, ws.value, Closed)|)
  }
}
