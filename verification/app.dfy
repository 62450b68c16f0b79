/**
  The dashboard's top-level component as a state machine: the session
  gate (login, logout, the data load that follows a login), navigation,
  and the equipment and user handlers that open and close the modals,
  save and delete. Each handler maps the state before an event to the
  state after it; `Step` adds the data-load effect that React runs when
  the session flags change.
 */
module App {
  import opened Records
  import opened Modals
  import Store
  import Seed

  /** The screen `currentView` selects. */
  datatype View = LoginView | DashboardView | UsersView | EquipmentView | DataMastersView | OrdersView | ReportsView

  datatype AppState = AppState(
    view: View,
    isAuthenticated: bool,
    authToken: Option<string>,
    users: seq<User>,
    equipment: seq<Equipment>,
    userModal: ModalState<UserFields>,
    equipmentModal: ModalState<EquipmentFields>,
    error: Option<string>)

  const SimulatedToken: string := "simulated_jwt_token_123"
  const AdminName: string := "admin"
  const AdminPassword: string := "admin"
  const InvalidCredentials: string := "Credenciales incorrectas."

  /** The state the component mounts with. */
  function Initial(): AppState {
    AppState(LoginView, false, Some(SimulatedToken), [], [], Closed(), Closed(), None)
  }

  /** The one credential pair the simulated login accepts. */
  predicate Accepts(username: string, password: string) {
    username == AdminName && password == AdminPassword
  }

  /** Everything but the session flags, the view and the error message. */
  predicate SameData(a: AppState, b: AppState) {
    a.users == b.users && a.equipment == b.equipment
    && a.userModal == b.userModal && a.equipmentModal == b.equipmentModal
  }

  /** `handleLogin`: the accepted pair opens the session on the dashboard;
      any other pair records the error and leaves the session as it was. */
  function Login(s: AppState, username: string, password: string): (r: AppState)
    ensures Accepts(username, password) ==> r.isAuthenticated && r.view == DashboardView
    ensures !Accepts(username, password) ==> r.isAuthenticated == s.isAuthenticated && r.view == s.view
    ensures r.error == None <==> Accepts(username, password)
    ensures !Accepts(username, password) ==> r.error == Some(InvalidCredentials)
    ensures r.authToken == s.authToken && SameData(r, s)
  {
    if Accepts(username, password) then
      s.(isAuthenticated := true, view := DashboardView, error := None)
    else
      s.(error := Some(InvalidCredentials))
  }

  /** `handleLogout`: closes the session and returns to the login screen.
      The collections are left as they are. */
  function Logout(s: AppState): (r: AppState)
    ensures !r.isAuthenticated && r.authToken == None && r.view == LoginView
    ensures r.error == s.error && SameData(r, s)
  {
    s.(isAuthenticated := false, authToken := None, view := LoginView)
  }

  /** The body of `fetchData`: both collections replaced by the seed data. */
  function FetchData(s: AppState): (r: AppState)
    ensures r.users == Seed.SeedUsers() && r.equipment == Seed.SeedEquipment() && r.error == None
    ensures r.isAuthenticated == s.isAuthenticated && r.authToken == s.authToken && r.view == s.view
    ensures r.userModal == s.userModal && r.equipmentModal == s.equipmentModal
  {
    s.(users := Seed.SeedUsers(), equipment := Seed.SeedEquipment(), error := None)
  }

  /** The load effect, whose dependencies are the authentication flag and
      the token: it runs after a render in which either changed, and
      fetches only when the session is authenticated. */
  function RunEffect(before: AppState, after: AppState): (r: AppState)
    ensures !after.isAuthenticated ==> r == after
    ensures before.isAuthenticated == after.isAuthenticated && before.authToken == after.authToken ==> r == after
    ensures !before.isAuthenticated && after.isAuthenticated ==> r == FetchData(after)
    ensures after.isAuthenticated && (before.isAuthenticated != after.isAuthenticated || before.authToken != after.authToken) ==>
      r == FetchData(after)
  {
    if (before.isAuthenticated != after.isAuthenticated || before.authToken != after.authToken) && after.isAuthenticated then
      FetchData(after)
    else
      after
  }

  /** The id `equip-${Date.now()}` for clock reading `now`. */
  function EquipmentIdAt(now: nat): string {
    TaggedId(EquipmentPrefix, now)
  }

  /** The id `user-${Date.now()}` for clock reading `now`. */
  function UserIdAt(now: nat): string {
    TaggedId(UserPrefix, now)
  }

  /** `handleSaveEquipment`: save into the equipment collection, clear the
      error and close the equipment modal. */
  function SaveEquipment(s: AppState, item: Equipment, now: nat): (r: AppState)
    ensures Truthy(item.id) ==> |r.equipment| == |s.equipment|
    ensures Truthy(item.id) ==> forall i :: 0 <= i < |s.equipment| ==>
      r.equipment[i] == (if s.equipment[i].id == item.id then item else s.equipment[i])
    ensures !Truthy(item.id) ==> r.equipment == s.equipment + [Record(Some(EquipmentIdAt(now)), item.fields)]
    ensures r.equipmentModal == Closed() && r.error == None
    ensures r.users == s.users && r.userModal == s.userModal
    ensures r.isAuthenticated == s.isAuthenticated && r.authToken == s.authToken && r.view == s.view
  {
    s.(equipment := Store.Save(s.equipment, item, EquipmentIdAt(now)), equipmentModal := Closed(), error := None)
  }

  /** `handleSaveUser`: the same over the user collection and modal. */
  function SaveUser(s: AppState, item: User, now: nat): (r: AppState)
    ensures Truthy(item.id) ==> |r.users| == |s.users|
    ensures Truthy(item.id) ==> forall i :: 0 <= i < |s.users| ==>
      r.users[i] == (if s.users[i].id == item.id then item else s.users[i])
    ensures !Truthy(item.id) ==> r.users == s.users + [Record(Some(UserIdAt(now)), item.fields)]
    ensures r.userModal == Closed() && r.error == None
    ensures r.equipment == s.equipment && r.equipmentModal == s.equipmentModal
    ensures r.isAuthenticated == s.isAuthenticated && r.authToken == s.authToken && r.view == s.view
  {
    s.(users := Store.Save(s.users, item, UserIdAt(now)), userModal := Closed(), error := None)
  }

  /** `handleDeleteEquipment` once the confirmation box is answered: "yes"
      filters the id out, clears the error and closes the modal; "cancel"
      only dismisses the box. The filter keeps every record without the id,
      in order (`Store.RemoveAppend`). */
  function DeleteEquipment(s: AppState, id: Option<string>, confirmed: bool): (r: AppState)
    ensures !confirmed ==> r == s
    ensures confirmed ==> !HasId(r.equipment, id) && r.equipmentModal == Closed() && r.error == None
    ensures confirmed ==> forall i :: 0 <= i < |r.equipment| ==> r.equipment[i] in s.equipment
    ensures confirmed ==> forall i :: 0 <= i < |s.equipment| && s.equipment[i].id != id ==> s.equipment[i] in r.equipment
    ensures confirmed ==> r.equipment == Store.Remove(s.equipment, id)
    ensures r.users == s.users && r.userModal == s.userModal
    ensures r.isAuthenticated == s.isAuthenticated && r.authToken == s.authToken && r.view == s.view
  {
    if confirmed then
      s.(equipment := Store.Remove(s.equipment, id), equipmentModal := Closed(), error := None)
    else
      s
  }

  /** `handleDeleteUser` once the confirmation box is answered. */
  function DeleteUser(s: AppState, id: Option<string>, confirmed: bool): (r: AppState)
    ensures !confirmed ==> r == s
    ensures confirmed ==> !HasId(r.users, id) && r.userModal == Closed() && r.error == None
    ensures confirmed ==> forall i :: 0 <= i < |r.users| ==> r.users[i] in s.users
    ensures confirmed ==> forall i :: 0 <= i < |s.users| && s.users[i].id != id ==> s.users[i] in r.users
    ensures confirmed ==> r.users == Store.Remove(s.users, id)
    ensures r.equipment == s.equipment && r.equipmentModal == s.equipmentModal
    ensures r.isAuthenticated == s.isAuthenticated && r.authToken == s.authToken && r.view == s.view
  {
    if confirmed then
      s.(users := Store.Remove(s.users, id), userModal := Closed(), error := None)
    else
      s
  }

  /** What the user can do. A form submit carries the form's fields and the
      clock reading a fresh id would be made from; a delete carries the
      answer to its confirmation box. */
  datatype Event =
    | LoginSubmitted(username: string, password: string)
    | LogoutClicked
    | Navigated(target: View)
    | EquipmentModalOpened(item: Equipment, kind: Kind)
    | EquipmentModalClosed
    | EquipmentEditFromView
    | EquipmentFormSubmitted(form: EquipmentFields, now: nat)
    | EquipmentDeleteAnswered(id: Option<string>, confirmed: bool)
    | UserModalOpened(user: User, kind: Kind)
    | UserModalClosed
    | UserEditFromView
    | UserFormSubmitted(userForm: UserFields, userNow: nat)
    | UserDeleteAnswered(userId: Option<string>, userConfirmed: bool)

  /** The state an event handler leaves behind, before effects run. */
  function Handle(s: AppState, e: Event): AppState {
    match e
    case LoginSubmitted(u, p) => Login(s, u, p)
    case LogoutClicked => Logout(s)
    case Navigated(v) => s.(view := v)
    case EquipmentModalOpened(item, kind) => s.(equipmentModal := Open(item, kind))
    case EquipmentModalClosed => s.(equipmentModal := Closed())
    case EquipmentEditFromView => s.(equipmentModal := ReopenForEdit(s.equipmentModal))
    case EquipmentFormSubmitted(form, now) =>
      (match Submitted(s.equipmentModal, form)
       case Some(item) => SaveEquipment(s, item, now)
       case None => s)
    case EquipmentDeleteAnswered(id, confirmed) => DeleteEquipment(s, id, confirmed)
    case UserModalOpened(user, kind) => s.(userModal := Open(user, kind))
    case UserModalClosed => s.(userModal := Closed())
    case UserEditFromView => s.(userModal := ReopenForEdit(s.userModal))
    case UserFormSubmitted(form, now) =>
      (match Submitted(s.userModal, form)
       case Some(user) => SaveUser(s, user, now)
       case None => s)
    case UserDeleteAnswered(id, confirmed) => DeleteUser(s, id, confirmed)
  }

  /** One event followed by the load effect. */
  function Step(s: AppState, e: Event): AppState {
    RunEffect(s, Handle(s, e))
  }

  /** Whether the screen offers event `e` in state `s`: the login form is
      rendered only while signed out, and the navigation, the tables and
      both modals only while signed in. Only the session flag is consulted,
      so this admits more than the screen does (a navigation to the login
      view, an add modal opened on a stored record): runs over-approximate
      the reachable states. */
  predicate Enabled(s: AppState, e: Event) {
    if e.LoginSubmitted? then !s.isAuthenticated else s.isAuthenticated
  }

  /** One user action: an event the screen offers is stepped, any other is
      ignored, since nothing on screen can raise it. */
  function Next(s: AppState, e: Event): AppState {
    if Enabled(s, e) then Step(s, e) else s
  }

  /** A sequence of user actions from state `s`. */
  function Run(s: AppState, es: seq<Event>): AppState
    decreases |es|
  {
    if es == [] then s else Run(Next(s, es[0]), es[1..])
  }
}
