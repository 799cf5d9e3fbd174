/**
 * The account actions: signing in and out, signing up with the provisioning
 * of a profile, a workspace and its owner membership, and the two
 * password-recovery steps. The authentication service's answers are inputs.
 */
module AuthActions {
  import opened Common
  import opened Store

  const BadCredentials := "Credenciais inválidas. Verifique seu e-mail e senha."
  const FillAllFields := "Por favor, preencha todos os campos."
  const PasswordTooShort := "A senha deve ter no mínimo 6 caracteres."
  const PasswordsDiffer := "As senhas não coincidem."
  const EmailInUse := "Falha ao cadastrar: Este e-mail pode já estar em uso."
  const NoUserCreated := "Não foi possível criar o usuário."
  const ProfileFailed := "Erro ao finalizar a criação do perfil."
  const WorkspaceFailed := "Erro ao criar o ambiente de trabalho inicial."
  const ConfirmEmail := "Cadastro realizado com sucesso! Verifique seu e-mail para confirmar a conta."
  const ResetFailed := "Não foi possível enviar o e-mail de recuperação."
  const ResetSent := "Se uma conta com este e-mail existir, um link de recuperação foi enviado."
  const PasswordUpdateFailed := "Não foi possível atualizar a senha. O link pode ter expirado."
  const PasswordUpdated := "Senha atualizada com sucesso!"
  const Dashboard := "/dashboard"
  const MinPasswordLength := 6

  /** The browser session the authentication service keeps: the signed-in user, if any. */
  class Session {
    var user: Option<Id>

    /** A session with the given user signed in, or none. */
    constructor (user: Option<Id>)
      ensures this.user == user
    {
      this.user := user;
    }
  }

  /**
   * `signIn`: when the service accepts the credentials of `user`, the session
   * becomes theirs and the action goes to the dashboard; otherwise the
   * session is left as it was and a fixed message is shown.
   */
  method SignIn(session: Session, user: Id, accepted: bool) returns (r: Outcome)
    modifies session
    ensures r.Redirect? <==> accepted
    ensures accepted ==> r == Redirect(Dashboard) && session.user == Some(user)
    ensures !accepted ==> r == Failure(BadCredentials) && session.user == old(session.user)
  {
    if !accepted {
      return Failure(BadCredentials);
    }
    session.user := Some(user);
    r := Redirect(Dashboard);
  }

  /**
   * `signOut`: ends the session, then goes back to the login page. With no
   * user signed in, no workspace resolves, so every workspace-scoped action
   * that follows finds nothing.
   */
  method SignOut(session: Session) returns (r: Outcome)
    modifies session
    ensures session.user == None && r == Redirect("/login")
    ensures forall workspaces :: ActiveWorkspace(workspaces, session.user) == None
  {
    session.user := None;
    r := Redirect("/login");
  }

  // ---------------------------------------------------------------------------
  // signUp

  datatype SignUpForm = SignUpForm(
    name: Option<string>,
    email: Option<string>,
    password: Option<string>,
    confirmPassword: Option<string>)

  /**
   * The checks `signUp` makes before contacting the service, in their order:
   * all four fields filled, a password of at least six characters, and a
   * confirmation equal to it. The first that fails gives the message.
   */
  function SignUpProblem(form: SignUpForm): (r: Option<string>)
    ensures r.None? <==>
      && Present(form.name) && Present(form.email) && Present(form.password) && Present(form.confirmPassword)
      && |form.password.value| >= MinPasswordLength && form.password.value == form.confirmPassword.value
    ensures !(Present(form.name) && Present(form.email) && Present(form.password) && Present(form.confirmPassword))
            ==> r == Some(FillAllFields)
    ensures r == Some(PasswordsDiffer) ==> |form.password.value| >= MinPasswordLength
  {
    if !Present(form.name) || !Present(form.email) || !Present(form.password) || !Present(form.confirmPassword) then
      Some(FillAllFields)
    else if |form.password.value| < MinPasswordLength then Some(PasswordTooShort)
    else if form.password.value != form.confirmPassword.value then Some(PasswordsDiffer)
    else None
  }

  /** What the authentication service answers to a sign-up. */
  datatype AuthSignUp =
    | Refused
    | NoUser
    | Created(userId: Id, hasSession: bool)

  const WorkspacePrefix := "Escritório de "

  /** The name of the workspace provisioned for a new account: the prefix, then the account's name. */
  function WorkspaceName(fullName: string): (r: string)
    ensures |r| == |WorkspacePrefix| + |fullName|
    ensures r[..|WorkspacePrefix|] == WorkspacePrefix && r[|WorkspacePrefix|..] == fullName
  {
    WorkspacePrefix + fullName
  }

  /**
   * `signUp`. A form that fails a check, a refused sign-up or a missing user
   * stores nothing. Then the profile, the workspace and the owner membership
   * are inserted in that order, each only after the previous one succeeded,
   * and nothing is undone when a later step fails. The membership insert's
   * own result is not looked at. A sign-up that hands back a session signs
   * the new user in, whatever happens after it. A new user without a session
   * is told to confirm the e-mail; one with a session goes to the dashboard,
   * where a user who owned no workspace before resolves to the new one.
   */
  method SignUp(db: Backend, session: Session, form: SignUpForm, auth: AuthSignUp, profileOk: bool,
                workspaceOk: bool, newWorkspaceId: Id, memberOk: bool) returns (r: Outcome)
    modifies db`profiles, db`workspaces, db`memberships, session
    ensures session.user ==
      if SignUpProblem(form).None? && auth.Created? && auth.hasSession then Some(auth.userId) else old(session.user)
    ensures SignUpProblem(form).Some? ==>
      && r == Failure(SignUpProblem(form).value)
      && db.profiles == old(db.profiles) && db.workspaces == old(db.workspaces) && db.memberships == old(db.memberships)
    ensures SignUpProblem(form).None? && !auth.Created? ==>
      && r == Failure(if auth.Refused? then EmailInUse else NoUserCreated)
      && db.profiles == old(db.profiles) && db.workspaces == old(db.workspaces) && db.memberships == old(db.memberships)
    ensures SignUpProblem(form).None? && auth.Created? ==>
      var uid := auth.userId;
      var name := form.name.value;
      && (!profileOk ==>
            && r == Failure(ProfileFailed)
            && db.profiles == old(db.profiles) && db.workspaces == old(db.workspaces)
            && db.memberships == old(db.memberships))
      && (profileOk ==> db.profiles == old(db.profiles) + [Profile(uid, name)])
      && (profileOk && !workspaceOk ==>
            r == Failure(WorkspaceFailed) && db.workspaces == old(db.workspaces) && db.memberships == old(db.memberships))
      && (profileOk && workspaceOk ==>
            && db.workspaces == old(db.workspaces) + [Workspace(newWorkspaceId, uid, WorkspaceName(name))]
            && db.memberships == old(db.memberships) + (if memberOk then [Membership(newWorkspaceId, uid, "owner")] else [])
            && r == (if auth.hasSession then Redirect(Dashboard) else Success(ConfirmEmail)))
    ensures r.Redirect? || r.Success? ==>
      && auth.Created?
      && (forall k :: 0 <= k < |old(db.workspaces)| ==> old(db.workspaces)[k].ownerId != auth.userId)
      ==> ActiveWorkspace(db.workspaces, Some(auth.userId)) == Some(newWorkspaceId)
    ensures r.Redirect? && (forall k :: 0 <= k < |old(db.workspaces)| ==> old(db.workspaces)[k].ownerId != auth.userId)
      ==> ActiveWorkspace(db.workspaces, session.user) == Some(newWorkspaceId)
  {
    var problem := SignUpProblem(form);
    if problem.Some? {
      return Failure(problem.value);
    }
    match auth
    case Refused =>
      return Failure(EmailInUse);
    case NoUser =>
      return Failure(NoUserCreated);
    case Created(uid, hasSession) =>
      if hasSession {
        session.user := Some(uid);
      }
      var name := form.name.value;
      if !profileOk {
        return Failure(ProfileFailed);
      }
      db.profiles := db.profiles + [Profile(uid, name)];
      if !workspaceOk {
        return Failure(WorkspaceFailed);
      }
      var workspace := Workspace(newWorkspaceId, uid, WorkspaceName(name));
      if forall k :: 0 <= k < |db.workspaces| ==> db.workspaces[k].ownerId != uid {
        ActiveWorkspaceOfFirst(db.workspaces, workspace);
      }
      db.workspaces := db.workspaces + [workspace];
      if memberOk {
        db.memberships := db.memberships + [Membership(newWorkspaceId, uid, "owner")];
      }
      if !hasSession {
        return Success(ConfirmEmail);
      }
      r := Redirect(Dashboard);
  }

  // ---------------------------------------------------------------------------
  // requestPasswordReset and updatePassword

  /**
   * The link the recovery e-mail points to: the configured base URL followed
   * by `/reset-password`; an unset base URL prints as `undefined`.
   */
  function ResetRedirect(baseUrl: Option<string>): (r: string)
    ensures |r| >= |"/reset-password"| && r[|r| - |"/reset-password"|..] == "/reset-password"
    ensures baseUrl.Some? ==> |r| == |baseUrl.value| + |"/reset-password"| && r[..|baseUrl.value|] == baseUrl.value
    ensures baseUrl.None? ==> r == "undefined/reset-password"
  {
    (if baseUrl.Some? then baseUrl.value else "undefined") + "/reset-password"
  }

  /** What `resetPasswordForEmail` is asked for: the address typed and the link to put in the e-mail. */
  datatype ResetRequest = ResetRequest(email: Option<string>, redirectTo: string)

  /**
   * `requestPasswordReset`: asks the service to mail a recovery link for the
   * typed address, pointing at the configured reset page; `sendReset` is the
   * service's acceptance of a request. An accepted request gets the same
   * reassurance whatever the address, a refused one a fixed failure.
   */
  function RequestPasswordReset(email: Option<string>, baseUrl: Option<string>, sendReset: ResetRequest -> bool)
    : (r: Outcome)
    ensures r.Success? <==> sendReset(ResetRequest(email, ResetRedirect(baseUrl)))
    ensures r.Success? ==> r.message == ResetSent
    ensures !r.Success? ==> r == Failure(ResetFailed)
  {
    var accepted := sendReset(ResetRequest(email, ResetRedirect(baseUrl)));
    if accepted then Success(ResetSent) else Failure(ResetFailed)
  }

  /**
   * The answer depends on nothing but the service's acceptance: two
   * addresses the service treats alike get the same message, so the message
   * does not tell whether an account exists for either.
   */
  lemma ResetAnswerOnlyFromService(e1: Option<string>, e2: Option<string>, baseUrl: Option<string>,
                                   sendReset: ResetRequest -> bool)
    requires sendReset(ResetRequest(e1, ResetRedirect(baseUrl))) == sendReset(ResetRequest(e2, ResetRedirect(baseUrl)))
    ensures RequestPasswordReset(e1, baseUrl, sendReset) == RequestPasswordReset(e2, baseUrl, sendReset)
  {
  }

  /**
   * `updatePassword`: a password under six characters is refused, then one
   * that differs from its confirmation, both before the service is asked; the
   * password changes exactly when both checks pass and the service accepts.
   */
  function UpdatePassword(password: string, confirmPassword: string, accepted: bool): (r: Outcome)
    ensures |password| < MinPasswordLength ==> r == Failure(PasswordTooShort)
    ensures |password| >= MinPasswordLength && password != confirmPassword ==> r == Failure(PasswordsDiffer)
    ensures r == Success(PasswordUpdated) <==>
      |password| >= MinPasswordLength && password == confirmPassword && accepted
    ensures r.Failure? || r == Success(PasswordUpdated)
  {
    if |password| < MinPasswordLength then Failure(PasswordTooShort)
    else if password != confirmPassword then Failure(PasswordsDiffer)
    else if !accepted then Failure(PasswordUpdateFailed)
    else Success(PasswordUpdated)
  }
}
