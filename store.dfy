/**
 * The records the application keeps in its hosted Postgres store, the store
 * itself as one mutable object, and the lookup every action starts with: the
 * workspace owned by the signed-in user.
 */
module Store {
  import opened Common
  import opened Seqs

  /** `cases.status`. */
  datatype Status = Open | Pending | Closed

  /** A law office's workspace; each account provisions one at sign-up. */
  datatype Workspace = Workspace(id: Id, ownerId: Id, name: string)

  /** The `profiles` row of an account. */
  datatype Profile = Profile(id: Id, fullName: string)

  /** A `workspace_members` row: a profile's role in a workspace. */
  datatype Membership = Membership(workspaceId: Id, profileId: Id, role: string)

  /** A `clients` row. */
  datatype Client = Client(
    id: Id,
    workspaceId: Id,
    name: string,
    email: Option<string>,
    phone: Option<string>,
    documentNumber: Option<string>,
    createdAt: Millis,
    updatedAt: Millis)

  /** A `cases` row. */
  datatype Case = Case(
    id: Id,
    workspaceId: Id,
    clientId: Id,
    title: string,
    description: Option<string>,
    status: Status,
    caseNumber: Option<string>,
    deadline: Option<Millis>,
    createdAt: Millis,
    updatedAt: Millis)

  /** A `documents` row; `path` names the file's object in the `documents` bucket. */
  datatype Document = Document(
    id: Id,
    workspaceId: Id,
    caseId: Id,
    name: string,
    path: string,
    createdAt: Millis)

  /**
   * The backend as the actions see it: the tables they read and write and the
   * object paths present in the file bucket.
   */
  class Backend {
    var workspaces: seq<Workspace>
    var profiles: seq<Profile>
    var memberships: seq<Membership>
    var clients: seq<Client>
    var cases: seq<Case>
    var documents: seq<Document>
    var blobs: set<string>

    /** A backend with the given tables and bucket contents. */
    constructor (workspaces: seq<Workspace>, profiles: seq<Profile>, memberships: seq<Membership>,
                 clients: seq<Client>, cases: seq<Case>, documents: seq<Document>, blobs: set<string>)
      ensures this.workspaces == workspaces && this.profiles == profiles && this.memberships == memberships
      ensures this.clients == clients && this.cases == cases && this.documents == documents
      ensures this.blobs == blobs
    {
      this.workspaces := workspaces;
      this.profiles := profiles;
      this.memberships := memberships;
      this.clients := clients;
      this.cases := cases;
      this.documents := documents;
      this.blobs := blobs;
    }
  }

  /** The workspaces whose owner is `user`, in table order. */
  function Owned(workspaces: seq<Workspace>, user: Id): (r: seq<Workspace>)
    ensures forall w :: w in r <==> w in workspaces && w.ownerId == user
  {
    Filter(workspaces, (w: Workspace) => w.ownerId == user)
  }

  /**
   * `getActiveWorkspaceId`: the id of the workspace owned by the signed-in
   * user. The lookup asks for a single row, so it yields an id exactly when
   * there is a user and exactly one workspace is theirs; no user, no
   * workspace, or several workspaces all give nothing.
   */
  function ActiveWorkspace(workspaces: seq<Workspace>, user: Option<Id>): (r: Option<Id>)
    ensures r.Some? <==> user.Some? && |Owned(workspaces, user.value)| == 1
    ensures r.Some? ==> exists w :: w in workspaces && w.ownerId == user.value && w.id == r.value
  {
    if user.None? then None
    else
      var owned := Owned(workspaces, user.value);
      if |owned| == 1 then
        assert owned[0] in owned;
        Some(owned[0].id)
      else None
  }

  /** Appending a workspace for a user who owned none makes it their active workspace. */
  lemma ActiveWorkspaceOfFirst(workspaces: seq<Workspace>, w: Workspace)
    requires forall k :: 0 <= k < |workspaces| ==> workspaces[k].ownerId != w.ownerId
    ensures ActiveWorkspace(workspaces + [w], Some(w.ownerId)) == Some(w.id)
  {
    FilterAppend(workspaces, [w], (x: Workspace) => x.ownerId == w.ownerId);
    assert Filter(workspaces, (x: Workspace) => x.ownerId == w.ownerId) == [];
    assert Filter([w], (x: Workspace) => x.ownerId == w.ownerId) == [w] by {
      assert [w][1..] == [];
    }
  }

  /** A second workspace for the same owner makes the lookup fail. */
  lemma ActiveWorkspaceOfTwo(w1: Workspace, w2: Workspace)
    requires w1.ownerId == w2.ownerId
    ensures ActiveWorkspace([w1, w2], Some(w1.ownerId)) == None
  {
    var f := Owned([w1, w2], w1.ownerId);
    assert w1 in f && w2 in f;
    if w1 == w2 {
      assert [w1, w2][1..] == [w2];
      assert f == [w1, w2];
    }
  }
}
