/**
 * The dashboard's two reads: the system alerts (overdue and long-untouched
 * cases) and the headline metrics with the recent-activity feed.
 */
module Dashboard {
  import opened Common
  import opened Seqs
  import opened Text
  import opened Store
  import opened CaseActions
  import opened ClientActions
  import opened DocumentActions

  const Day := 24 * 60 * 60 * 1000
  /** A case is inactive when it has not been updated for this long. */
  const InactivePeriod := 30 * Day
  /** A deadline is upcoming when it falls within this window from now. */
  const UpcomingWindow := 7 * Day
  /** An edit counts as an update only when it came more than this long after creation. */
  const UpdateGap := 1000
  const CasesSearchLink := "/dashboard/casos?query="

  // ---------------------------------------------------------------------------
  // getSystemAlerts

  datatype AlertKind = Warning | Info | Success

  datatype Alert = Alert(id: string, kind: AlertKind, message: string, link: Option<string>)

  /** The workspace's open or pending cases whose deadline has passed. */
  function OverdueCases(cases: seq<Case>, ws: Id, now: Millis): (r: seq<Case>)
    ensures forall c :: c in r <==>
      && c in cases && c.workspaceId == ws
      && c.deadline.Some? && c.deadline.value < now && c.status in {Open, Pending}
  {
    Filter(cases, (c: Case) => c.workspaceId == ws && c.deadline.Some? && c.deadline.value < now
                               && c.status in {Open, Pending})
  }

  /** The workspace's open cases not updated in the last thirty days. */
  function InactiveCases(cases: seq<Case>, ws: Id, now: Millis): (r: seq<Case>)
    ensures forall c :: c in r <==>
      c in cases && c.workspaceId == ws && c.updatedAt < now - InactivePeriod && c.status == Open
  {
    Filter(cases, (c: Case) => c.workspaceId == ws && c.updatedAt < now - InactivePeriod && c.status == Open)
  }

  /** The titles of `cs`, in order. */
  function Titles(cs: seq<Case>): (r: seq<string>)
    ensures |r| == |cs| && forall k :: 0 <= k < |cs| ==> r[k] == cs[k].title
  {
    seq(|cs|, k requires 0 <= k < |cs| => cs[k].title)
  }

  /**
   * The link of the overdue alert: the case listing searched for the titles
   * of the listed cases, joined with commas so that the search reads them as
   * a list of title fragments. It is also what the inactive alert's link was
   * evidently meant to be.
   */
  function AlertLink(cs: seq<Case>): string {
    CasesSearchLink + Join(Titles(cs), ',')
  }

  /** The inactive-case link as the source builds it: the titles joined with spaces. */
  function InactiveLinkAsWritten(cs: seq<Case>): string {
    CasesSearchLink + Join(Titles(cs), ' ')
  }

  function OverdueAlert(overdue: seq<Case>): Alert {
    Alert("overdue_cases", Warning, "Você tem " + NatToString(|overdue|) + " caso(s) com o prazo vencido.",
          Some(AlertLink(overdue)))
  }

  function InactiveAlert(inactive: seq<Case>): Alert {
    Alert("inactive_cases", Info, NatToString(|inactive|) + " caso(s) não são atualizados há mais de 30 dias.",
          Some(InactiveLinkAsWritten(inactive)))
  }

  const AllClear := Alert("all_ok", AlertKind.Success, "Nenhum alerta crítico para o sistema.", None)

  /**
   * The alerts raised for the overdue and the inactive cases of a workspace:
   * a warning when some case is overdue, then a notice when some case is
   * inactive, and the all-clear exactly when neither was raised, so there
   * are one or two. Each raised alert counts its cases and links to them.
   */
  function AlertsFor(overdue: seq<Case>, inactive: seq<Case>): (r: seq<Alert>)
    ensures 1 <= |r| <= 2
    ensures OverdueAlert(overdue) in r <==> |overdue| > 0
    ensures InactiveAlert(inactive) in r <==> |inactive| > 0
    ensures AllClear in r <==> |overdue| == 0 && |inactive| == 0
    ensures |overdue| > 0 ==> r[0] == OverdueAlert(overdue)
    ensures |r| == 2 ==> r == [OverdueAlert(overdue), InactiveAlert(inactive)]
  {
    if |overdue| > 0 && |inactive| > 0 then [OverdueAlert(overdue), InactiveAlert(inactive)]
    else if |overdue| > 0 then [OverdueAlert(overdue)]
    else if |inactive| > 0 then [InactiveAlert(inactive)]
    else [AllClear]
  }

  /**
   * `getSystemAlerts`: nothing without a workspace; otherwise the alerts for
   * the workspace's overdue and inactive cases, built up one at a time.
   */
  method SystemAlerts(db: Backend, user: Option<Id>, now: Millis) returns (alerts: seq<Alert>)
    ensures ActiveWorkspace(db.workspaces, user).None? ==> alerts == []
    ensures ActiveWorkspace(db.workspaces, user).Some? ==>
      var ws := ActiveWorkspace(db.workspaces, user).value;
      alerts == AlertsFor(OverdueCases(db.cases, ws, now), InactiveCases(db.cases, ws, now))
  {
    var ws := ActiveWorkspace(db.workspaces, user);
    if ws.None? {
      return [];
    }
    alerts := [];
    var overdue := OverdueCases(db.cases, ws.value, now);
    if |overdue| > 0 {
      alerts := alerts + [OverdueAlert(overdue)];
    }
    assert alerts == if |overdue| > 0 then [OverdueAlert(overdue)] else [];
    var inactive := InactiveCases(db.cases, ws.value, now);
    if |inactive| > 0 {
      alerts := alerts + [InactiveAlert(inactive)];
    }
    if |alerts| == 0 {
      alerts := alerts + [AllClear];
    }
  }

  // ---------------------------------------------------------------------------
  // What the alert links find

  /** Joining two or more parts with a separator gives a string longer than each part. */
  lemma {:induction false} JoinLongerThanParts(parts: seq<string>, sep: char, i: int)
    requires |parts| >= 2 && 0 <= i < |parts|
    ensures |Join(parts, sep)| > |parts[i]|
  {
    var tail := Join(parts[1..], sep);
    assert Join(parts, sep) == parts[0] + [sep] + tail;
    if i > 0 && |parts| > 2 {
      JoinLongerThanParts(parts[1..], sep, i - 1);
    } else if i > 0 {
      assert tail == parts[1];
    }
  }

  /** Wildcard-free parts joined with a non-wildcard separator stay wildcard-free. */
  lemma {:induction false} JoinNoWildcards(parts: seq<string>, sep: char)
    requires !IsWildcard(sep)
    requires forall k :: 0 <= k < |parts| ==> NoWildcards(parts[k])
    ensures NoWildcards(Join(parts, sep))
  {
    if |parts| >= 2 {
      JoinNoWildcards(parts[1..], sep);
      var tail := Join(parts[1..], sep);
      var whole := parts[0] + [sep] + tail;
      forall m | 0 <= m < |whole| ensures !IsWildcard(whole[m]) {
        if m > |parts[0]| {
          assert whole[m] == tail[m - |parts[0]| - 1];
        }
      }
    }
  }

  /**
   * With two or more cases in the inactive alert, the search text of its link
   * is longer than every one of their titles, so no title contains it.
   */
  lemma InactiveLinkMissesTitles(cs: seq<Case>)
    requires |cs| >= 2
    ensures forall k :: 0 <= k < |cs| ==> !ContainsFolded(cs[k].title, Join(Titles(cs), ' '))
  {
    forall k | 0 <= k < |cs| ensures !ContainsFolded(cs[k].title, Join(Titles(cs), ' ')) {
      JoinLongerThanParts(Titles(cs), ' ', k);
      ContainsFoldedTooLong(cs[k].title, Join(Titles(cs), ' '));
    }
  }

  /** A character that is neither a part's nor the separator stays out of the join. */
  lemma {:induction false} JoinExcludes(parts: seq<string>, sep: char, ch: char)
    requires ch != sep && forall k :: 0 <= k < |parts| ==> ch !in parts[k]
    ensures ch !in Join(parts, sep)
  {
    if |parts| >= 2 {
      JoinExcludes(parts[1..], sep, ch);
    }
  }

  /**
   * Two inactive cases without case numbers, in a workspace where no client
   * name matches: following the inactive alert's link lists neither of them.
   */
  lemma InactiveLinkListsNothing()
    ensures
      var c1 := Case("c1", "w", "k", "Divorcio", None, Open, None, None, 0, 0);
      var c2 := Case("c2", "w", "k", "Inventario", None, Open, None, None, 0, 0);
      var q := Join(Titles([c1, c2]), ' ');
      InactiveAlert([c1, c2]).link == Some(CasesSearchLink + q)
      && !Wanted(c1, [], "w", Some(q)) && !Wanted(c2, [], "w", Some(q))
  {
    var c1 := Case("c1", "w", "k", "Divorcio", None, Open, None, None, 0, 0);
    var c2 := Case("c2", "w", "k", "Inventario", None, Open, None, None, 0, 0);
    var cs := [c1, c2];
    var titles := Titles(cs);
    var q := Join(titles, ' ');
    assert titles[0] == "Divorcio" && titles[1] == "Inventario";
    assert NoWildcards("Divorcio") && NoWildcards("Inventario");
    JoinNoWildcards(titles, ' ');
    JoinExcludes(titles, ' ', ',');
    InactiveLinkMissesTitles(cs);
    JoinLongerThanParts(titles, ' ', 0);
    NotWantedWithoutMatch(c1, q);
    NotWantedWithoutMatch(c2, q);
  }

  /**
   * A case without a case number, searched for comma-free, wildcard-free text
   * its title does not contain, is not listed when there are no clients.
   */
  lemma NotWantedWithoutMatch(c: Case, q: string)
    requires c.caseNumber.None? && q != "" && ',' !in q && NoWildcards(q) && !ContainsFolded(c.title, q)
    ensures !Wanted(c, [], c.workspaceId, Some(q))
  {
    var none: seq<Client> := [];
    assert StripWildcards(q) == q;
    assert !SearchHit(c, none, c.workspaceId, q);
  }

  /** A case of the workspace whose title contains the comma-free search text is listed. */
  lemma WantedByTitle(c: Case, clients: seq<Client>, ws: Id, q: string)
    requires c.workspaceId == ws && q != "" && NoWildcards(q) && ',' !in q && ContainsFolded(c.title, q)
    ensures Wanted(c, clients, ws, Some(q))
  {
    assert StripWildcards(q) == q;
  }

  /** A case of the workspace whose title contains one of the comma-separated terms is listed. */
  lemma WantedByTerm(c: Case, clients: seq<Client>, ws: Id, q: string, t: string)
    requires c.workspaceId == ws && NoWildcards(q) && ',' in q
    requires t in CommaTerms(q) && ContainsFolded(c.title, t)
    ensures Wanted(c, clients, ws, Some(q))
  {
    assert StripWildcards(q) == q;
  }

  /**
   * Characters the link's query string does not carry through verbatim:
   * `&` ends the parameter, `#` starts the fragment and `+` reads as a space.
   */
  predicate UrlSafe(t: string) {
    '&' !in t && '#' !in t && '+' !in t
  }

  /**
   * The search behind an alert link lists every case the alert counted, as
   * long as the titles carry no comma, no wildcard (so no `%` escape either)
   * and no character the query string alters, and are not blank: one
   * title is searched as itself, several are read back as the comma list of
   * their trimmed forms, each of which its own title contains.
   */
  lemma {:induction false} AlertLinkFindsListed(cs: seq<Case>, clients: seq<Client>, ws: Id)
    requires |cs| >= 1
    requires forall k :: 0 <= k < |cs| ==>
      && cs[k].workspaceId == ws && Trim(cs[k].title) != ""
      && ',' !in cs[k].title && NoWildcards(cs[k].title) && UrlSafe(cs[k].title)
    ensures forall k :: 0 <= k < |cs| ==> Wanted(cs[k], clients, ws, Some(Join(Titles(cs), ',')))
  {
    forall k | 0 <= k < |cs| ensures Wanted(cs[k], clients, ws, Some(Join(Titles(cs), ','))) {
      AlertLinkFindsOne(cs, clients, ws, k);
    }
  }

  /** One case of the alert, found by the search behind its link. */
  lemma {:induction false} AlertLinkFindsOne(cs: seq<Case>, clients: seq<Client>, ws: Id, k: int)
    requires 0 <= k < |cs|
    requires forall k :: 0 <= k < |cs| ==>
      && cs[k].workspaceId == ws && Trim(cs[k].title) != ""
      && ',' !in cs[k].title && NoWildcards(cs[k].title) && UrlSafe(cs[k].title)
    ensures Wanted(cs[k], clients, ws, Some(Join(Titles(cs), ',')))
  {
    if |cs| == 1 {
      assert k == 0;
      AlertLinkFindsSingle(cs, clients, ws);
    } else {
      var titles := Titles(cs);
      assert forall i :: 0 <= i < |titles| ==> ',' !in titles[i] && NoWildcards(titles[i]) by {
        forall i | 0 <= i < |titles| ensures ',' !in titles[i] && NoWildcards(titles[i]) {
          assert titles[i] == cs[i].title;
        }
      }
      JoinNoWildcards(titles, ',');
      AlertLinkFindsOfMany(titles, cs[k], clients, ws, k);
    }
  }

  /** One listed case: its title is the whole search text. */
  lemma AlertLinkFindsSingle(cs: seq<Case>, clients: seq<Client>, ws: Id)
    requires |cs| == 1
    requires cs[0].workspaceId == ws && Trim(cs[0].title) != "" && ',' !in cs[0].title && NoWildcards(cs[0].title)
    ensures Wanted(cs[0], clients, ws, Some(Join(Titles(cs), ',')))
  {
    var t := cs[0].title;
    assert Join(Titles(cs), ',') == t;
    ContainsSelf(t);
    ContainsFoldedOfContains(t, t);
    WantedByTitle(cs[0], clients, ws, t);
  }

  /** Several listed cases: the search reads back the trimmed titles, and each title contains its own. */
  lemma AlertLinkFindsOfMany(titles: seq<string>, c: Case, clients: seq<Client>, ws: Id, k: int)
    requires |titles| >= 2 && 0 <= k < |titles| && titles[k] == c.title
    requires forall i :: 0 <= i < |titles| ==> ',' !in titles[i]
    requires c.workspaceId == ws && Trim(c.title) != "" && NoWildcards(Join(titles, ','))
    ensures Wanted(c, clients, ws, Some(Join(titles, ',')))
  {
    var q := Join(titles, ',');
    assert q == titles[0] + [','] + Join(titles[1..], ',');
    assert q[|titles[0]|] == ',';
    SplitOfJoin(titles, ',');
    assert CommaTerms(q) == TrimmedNonEmpty(titles);
    var t := c.title;
    TrimmedPieceKept(titles, t);
    TrimContained(t);
    ContainsFoldedOfContains(t, Trim(t));
    WantedByTerm(c, clients, ws, q, Trim(t));
  }

  // ---------------------------------------------------------------------------
  // getDashboardMetrics

  datatype Entity = ClientEntity | CaseEntity

  /** One entry of the recent-activity feed. */
  datatype Activity = Activity(kind: string, name: string, time: Millis, entity: Entity)

  datatype Metrics = Metrics(
    clientCount: nat,
    activeCasesCount: nat,
    upcomingDeadlines: nat,
    totalDocumentsCount: nat,
    recentActivitiesCount: nat,
    successRate: nat,
    recentActivityFeed: seq<Activity>)

  /**
   * The share of closed cases in percent, computed exactly and rounded to
   * the nearest integer with halves rounded up; 0 when there are no cases.
   * The source divides in floating point, where a share that is exactly a
   * half can come out just below it (23 of 40 gives 57 there, 58 here).
   */
  function SuccessRate(closed: nat, total: nat): (r: nat)
    ensures total == 0 ==> r == 0
    ensures total > 0 ==> 2 * total * r <= 200 * closed + total < 2 * total * (r + 1)
    ensures closed <= total ==> r <= 100
  {
    if total == 0 then 0
    else
      var x := 200 * closed + total;
      var d := 2 * total;
      var r := x / d;
      assert x == d * r + x % d;
      RoundedShareAtMost(x, d, r, closed, total);
      r
  }

  /** Why the rounded share of at most all cases is at most 100. */
  lemma RoundedShareAtMost(x: int, d: int, r: int, closed: nat, total: nat)
    requires total > 0 && x == 200 * closed + total && d == 2 * total
    requires d * r <= x
    ensures closed <= total ==> r <= 100
  {
    if closed <= total {
      assert d * (101 - r) > 0;
      PositiveFactor(d, 101 - r);
    }
  }

  lemma PositiveFactor(a: int, b: int)
    requires a > 0 && a * b > 0
    ensures b > 0
  {
  }

  /** The workspace's cases whose deadline lies between now and seven days from now. */
  function UpcomingCases(cases: seq<Case>, ws: Id, now: Millis): (r: seq<Case>)
    ensures forall c :: c in r <==>
      && c in cases && c.workspaceId == ws
      && c.deadline.Some? && now <= c.deadline.value <= now + UpcomingWindow
  {
    Filter(cases, (c: Case) => c.workspaceId == ws && c.deadline.Some?
                               && now <= c.deadline.value <= now + UpcomingWindow)
  }

  function ClientUpdatedAt(k: Client): int {
    k.updatedAt
  }

  function CaseUpdatedAt(c: Case): int {
    c.updatedAt
  }

  function ActivityTime(a: Activity): int {
    a.time
  }

  /** A client as a feed entry: an update when it changed more than a second after its creation. */
  function ClientActivity(k: Client): (a: Activity)
    ensures a.name == k.name && a.time == k.updatedAt && a.entity == ClientEntity
    ensures a.kind == (if k.updatedAt - k.createdAt > UpdateGap then "Cliente atualizado" else "Novo cliente")
  {
    Activity(if k.updatedAt - k.createdAt > UpdateGap then "Cliente atualizado" else "Novo cliente",
             k.name, k.updatedAt, ClientEntity)
  }

  /** A case as a feed entry, labelled the same way. */
  function CaseActivity(c: Case): (a: Activity)
    ensures a.name == c.title && a.time == c.updatedAt && a.entity == CaseEntity
    ensures a.kind == (if c.updatedAt - c.createdAt > UpdateGap then "Caso atualizado" else "Novo caso")
  {
    Activity(if c.updatedAt - c.createdAt > UpdateGap then "Caso atualizado" else "Novo caso",
             c.title, c.updatedAt, CaseEntity)
  }

  /** An entry is labelled as an update exactly when its record changed more than a second after creation. */
  lemma ActivityLabels(k: Client, c: Case)
    ensures ClientActivity(k).kind == "Cliente atualizado" <==> k.updatedAt > k.createdAt + UpdateGap
    ensures ClientActivity(k).kind == "Novo cliente" <==> k.updatedAt <= k.createdAt + UpdateGap
    ensures CaseActivity(c).kind == "Caso atualizado" <==> c.updatedAt > c.createdAt + UpdateGap
    ensures CaseActivity(c).kind == "Novo caso" <==> c.updatedAt <= c.createdAt + UpdateGap
  {
  }

  function ClientActivities(ks: seq<Client>): (r: seq<Activity>)
    ensures |r| == |ks| && forall i :: 0 <= i < |ks| ==> r[i] == ClientActivity(ks[i])
  {
    seq(|ks|, i requires 0 <= i < |ks| => ClientActivity(ks[i]))
  }

  function CaseActivities(cs: seq<Case>): (r: seq<Activity>)
    ensures |r| == |cs| && forall i :: 0 <= i < |cs| ==> r[i] == CaseActivity(cs[i])
  {
    seq(|cs|, i requires 0 <= i < |cs| => CaseActivity(cs[i]))
  }

  /**
   * The feed: the entries of both kinds together, newest first, at most four.
   * No entry left out is newer than one shown.
   */
  function MergeFeed(clientActs: seq<Activity>, caseActs: seq<Activity>): (r: seq<Activity>)
    ensures SortedDesc(r, ActivityTime)
    ensures |r| == if |clientActs| + |caseActs| <= 4 then |clientActs| + |caseActs| else 4
    ensures multiset(r) <= multiset(clientActs + caseActs)
    ensures forall y, i :: y in multiset(clientActs + caseActs) - multiset(r) && 0 <= i < |r| ==>
      r[i].time >= y.time
  {
    Top(clientActs + caseActs, ActivityTime, 4)
  }

  /**
   * `getDashboardMetrics`: zeros and an empty feed without a workspace.
   * Otherwise the workspace's client, open-case, upcoming-deadline and
   * document counts; the success rate of its cases, at most 100; and a feed
   * of at most four entries drawn from its three most recently updated
   * clients and three most recently updated cases, newest first, together
   * with its length.
   */
  function DashboardMetrics(db: Backend, user: Option<Id>, now: Millis): (r: Metrics)
    reads db
    ensures ActiveWorkspace(db.workspaces, user).None? ==> r == Metrics(0, 0, 0, 0, 0, 0, [])
    ensures ActiveWorkspace(db.workspaces, user).Some? ==>
      var ws := ActiveWorkspace(db.workspaces, user).value;
      var recentClients := Top(WorkspaceClients(db.clients, ws), ClientUpdatedAt, 3);
      var recentCases := Top(WorkspaceCases(db.cases, ws), CaseUpdatedAt, 3);
      && r.clientCount == |WorkspaceClients(db.clients, ws)|
      && r.activeCasesCount == |WithStatus(db.cases, ws, Open)|
      && r.upcomingDeadlines == |UpcomingCases(db.cases, ws, now)|
      && r.totalDocumentsCount == |WorkspaceDocuments(db.documents, ws)|
      && r.successRate == SuccessRate(|WithStatus(db.cases, ws, Closed)|, |WorkspaceCases(db.cases, ws)|)
      && r.successRate <= 100
      && r.recentActivityFeed == MergeFeed(ClientActivities(recentClients), CaseActivities(recentCases))
      && r.recentActivitiesCount == |r.recentActivityFeed| <= 4
  {
    var ws := ActiveWorkspace(db.workspaces, user);
    if ws.None? then Metrics(0, 0, 0, 0, 0, 0, [])
    else
      var w := ws.value;
      var cases := WorkspaceCases(db.cases, w);
      var closed := WithStatus(db.cases, w, Closed);
      StatusCountsPartition(db.cases, w);
      var feed := MergeFeed(ClientActivities(Top(WorkspaceClients(db.clients, w), ClientUpdatedAt, 3)),
                            CaseActivities(Top(cases, CaseUpdatedAt, 3)));
      Metrics(|WorkspaceClients(db.clients, w)|, |WithStatus(db.cases, w, Open)|, |UpcomingCases(db.cases, w, now)|,
              |WorkspaceDocuments(db.documents, w)|, |feed|, SuccessRate(|closed|, |cases|), feed)
  }
}
