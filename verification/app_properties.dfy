/**
  Properties of the dashboard state machine over whole steps (handler
  plus load effect) and over sequences of steps.
 */
module AppProperties {
  import opened Decimal
  import opened Records
  import opened Modals
  import opened App
  import Store
  import Seed

  /** Both collections well formed: every record has a truthy id, and no
      id occurs twice in one collection. */
  predicate Consistent(s: AppState) {
    WellFormed(s.users) && WellFormed(s.equipment)
  }

  /** A form submit that takes the insert path draws an id from the clock
      that is not yet stored in the collection it saves into. The dashboard
      does not check this: two inserts in the same millisecond would share
      an id. Submits that update in place never use the clock. */
  predicate ClockFresh(s: AppState, e: Event) {
    match e
    case EquipmentFormSubmitted(form, now) =>
      var item := Submitted(s.equipmentModal, form);
      item.Some? && !Truthy(item.value.id) ==> !HasId(s.equipment, Some(EquipmentIdAt(now)))
    case UserFormSubmitted(form, now) =>
      var user := Submitted(s.userModal, form);
      user.Some? && !Truthy(user.value.id) ==> !HasId(s.users, Some(UserIdAt(now)))
    case _ => true
  }

  /** `ClockFresh` holds at every action of a run that the screen offers. */
  predicate ClockFreshRun(s: AppState, es: seq<Event>)
    decreases |es|
  {
    es == [] || ((Enabled(s, es[0]) ==> ClockFresh(s, es[0])) && ClockFreshRun(Next(s, es[0]), es[1..]))
  }

  /** No event of `es` is a login with the accepted pair. */
  predicate NoAcceptedLogin(es: seq<Event>) {
    forall i :: 0 <= i < |es| ==> !(es[i].LoginSubmitted? && Accepts(es[i].username, es[i].password))
  }

  /** From a signed-out state, a login step authenticates exactly for the
      accepted pair. Accepted: the dashboard opens with the seed data
      loaded. Rejected: only the error message changes. */
  lemma LoginGate(s: AppState, username: string, password: string)
    requires !s.isAuthenticated
    ensures Step(s, LoginSubmitted(username, password)).isAuthenticated <==> Accepts(username, password)
    ensures Accepts(username, password) ==>
      var r := Step(s, LoginSubmitted(username, password));
      r.view == DashboardView && r.error == None
      && r.users == Seed.SeedUsers() && r.equipment == Seed.SeedEquipment()
    ensures !Accepts(username, password) ==>
      Step(s, LoginSubmitted(username, password)) == s.(error := Some(InvalidCredentials))
  {
  }

  /** A logout step always ends the session on the login screen, and never
      touches the collections. */
  lemma LogoutResets(s: AppState)
    ensures var r := Step(s, LogoutClicked);
      !r.isAuthenticated && r.authToken == None && r.view == LoginView
      && r.users == s.users && r.equipment == s.equipment
  {
  }

  /** The data load happens only inside an authenticated session, only on
      a login, and loads exactly the seed data. */
  lemma LoadOnlyWhenAuthenticated(s: AppState, e: Event)
    ensures Step(s, e) != Handle(s, e) ==>
      e.LoginSubmitted? && Step(s, e).isAuthenticated
      && Step(s, e).users == Seed.SeedUsers() && Step(s, e).equipment == Seed.SeedEquipment()
  {
  }

  /** Cancelling a delete confirmation changes nothing at all. */
  lemma CancelledDeleteIsIdentity(s: AppState, id: Option<string>)
    ensures Step(s, EquipmentDeleteAnswered(id, false)) == s
    ensures Step(s, UserDeleteAnswered(id, false)) == s
  {
  }

  /** A confirmed delete removes every record with the id, keeps the other
      records in order, and closes the modal; in a consistent state the
      collection shrinks by exactly the one record carrying the id. */
  lemma ConfirmedEquipmentDelete(s: AppState, id: Option<string>)
    ensures var r := Step(s, EquipmentDeleteAnswered(id, true));
      r.equipment == Store.Remove(s.equipment, id) && !HasId(r.equipment, id)
      && r.equipmentModal == Closed() && r.users == s.users
    ensures Consistent(s) && HasId(s.equipment, id) ==>
      |Step(s, EquipmentDeleteAnswered(id, true)).equipment| == |s.equipment| - 1
    ensures !HasId(s.equipment, id) ==>
      Step(s, EquipmentDeleteAnswered(id, true)).equipment == s.equipment
  {
    var r := Step(s, EquipmentDeleteAnswered(id, true));
    assert r.equipment == Store.Remove(s.equipment, id);
    Store.RemoveLength(s.equipment, id);
  }

  /** The same for a confirmed user delete. */
  lemma ConfirmedUserDelete(s: AppState, id: Option<string>)
    ensures var r := Step(s, UserDeleteAnswered(id, true));
      r.users == Store.Remove(s.users, id) && !HasId(r.users, id)
      && r.userModal == Closed() && r.equipment == s.equipment
    ensures Consistent(s) && HasId(s.users, id) ==>
      |Step(s, UserDeleteAnswered(id, true)).users| == |s.users| - 1
    ensures !HasId(s.users, id) ==>
      Step(s, UserDeleteAnswered(id, true)).users == s.users
  {
    var r := Step(s, UserDeleteAnswered(id, true));
    assert r.users == Store.Remove(s.users, id);
    Store.RemoveLength(s.users, id);
  }

  /** The add flow: the "add equipment" button, then a submit, appends one
      record with the form's fields and the clock-made id, and closes the
      modal. */
  lemma AddEquipmentFlow(s: AppState, form: EquipmentFields, now: nat)
    ensures var shown := Step(s, EquipmentModalOpened(EquipmentAddTemplate, AddKind));
      var r := Step(shown, EquipmentFormSubmitted(form, now));
      r.equipment == s.equipment + [Record(Some(EquipmentIdAt(now)), form)]
      && r.equipmentModal == Closed() && r.users == s.users
  {
    AddSubmitHasNoId(EquipmentAddTemplate, form);
  }

  /** The add flow for users. */
  lemma AddUserFlow(s: AppState, form: UserFields, now: nat)
    ensures var shown := Step(s, UserModalOpened(UserAddTemplate, AddKind));
      var r := Step(shown, UserFormSubmitted(form, now));
      r.users == s.users + [Record(Some(UserIdAt(now)), form)]
      && r.userModal == Closed() && r.equipment == s.equipment
  {
    AddSubmitHasNoId(UserAddTemplate, form);
  }

  /** The edit flow: opening a stored record for editing and submitting
      rewrites that record's fields in place, under its own id, and leaves
      every other record and the collection's length as they were. */
  lemma EditEquipmentFlow(s: AppState, k: nat, form: EquipmentFields, now: nat)
    requires Consistent(s)
    requires k < |s.equipment|
    ensures var shown := Step(s, EquipmentModalOpened(s.equipment[k], EditKind));
      var r := Step(shown, EquipmentFormSubmitted(form, now));
      r.equipment == s.equipment[k := Record(s.equipment[k].id, form)]
      && r.equipmentModal == Closed() && r.users == s.users
  {
    var item := Record(s.equipment[k].id, form);
    EditSubmitKeepsId(s.equipment[k], form);
    Store.ReplaceUnique(s.equipment, item, k);
  }

  /** The edit flow for users. */
  lemma EditUserFlow(s: AppState, k: nat, form: UserFields, now: nat)
    requires Consistent(s)
    requires k < |s.users|
    ensures var shown := Step(s, UserModalOpened(s.users[k], EditKind));
      var r := Step(shown, UserFormSubmitted(form, now));
      r.users == s.users[k := Record(s.users[k].id, form)]
      && r.userModal == Closed() && r.equipment == s.equipment
  {
    var item := Record(s.users[k].id, form);
    EditSubmitKeepsId(s.users[k], form);
    Store.ReplaceUnique(s.users, item, k);
  }

  /** A save of one collection keeps it well formed; the fresh id matters
      only on the insert path. */
  lemma SaveWellFormed<F>(rs: seq<Record<F>>, item: Record<F>, freshId: string)
    requires WellFormed(rs)
    requires !Truthy(item.id) ==> freshId != "" && !HasId(rs, Some(freshId))
    ensures WellFormed(Store.Save(rs, item, freshId))
  {
    if Truthy(item.id) {
      Store.ReplaceWellFormed(rs, item);
    } else {
      Store.InsertWellFormed(rs, item, freshId);
    }
  }

  /** Every step keeps both collections consistent, given a fresh clock
      reading on an insert. */
  lemma StepConsistent(s: AppState, e: Event)
    requires Consistent(s)
    requires ClockFresh(s, e)
    ensures Consistent(Step(s, e))
  {
    Seed.SeedEquipmentShape();
    Seed.SeedUsersWellFormed();
    match e
    case EquipmentFormSubmitted(form, now) =>
      assert |Show(now)| >= 1;
      var item := Submitted(s.equipmentModal, form);
      if item.Some? {
        SaveWellFormed(s.equipment, item.value, EquipmentIdAt(now));
      }
    case UserFormSubmitted(form, now) =>
      assert |Show(now)| >= 1;
      var user := Submitted(s.userModal, form);
      if user.Some? {
        SaveWellFormed(s.users, user.value, UserIdAt(now));
      }
    case EquipmentDeleteAnswered(id, _) =>
      Store.RemoveWellFormed(s.equipment, id);
    case UserDeleteAnswered(id, _) =>
      Store.RemoveWellFormed(s.users, id);
    case _ =>
  }

  /** Every run from a consistent state with fresh clock readings ends in a
      consistent state. */
  lemma {:induction false} RunConsistent(s: AppState, es: seq<Event>)
    requires Consistent(s)
    requires ClockFreshRun(s, es)
    ensures Consistent(Run(s, es))
    decreases |es|
  {
    if es != [] {
      if Enabled(s, es[0]) {
        StepConsistent(s, es[0]);
      }
      RunConsistent(Next(s, es[0]), es[1..]);
    }
  }

  /** Every state the dashboard reaches from mounting, with fresh clock
      readings, is consistent. */
  lemma ReachableConsistent(es: seq<Event>)
    requires ClockFreshRun(Initial(), es)
    ensures Consistent(Run(Initial(), es))
  {
    RunConsistent(Initial(), es);
  }

  /** While signed out, the screen offers only the login form, so until a
      login with the accepted pair the session stays closed and neither
      collection changes. */
  lemma {:induction false} SignedOutRunKeepsData(s: AppState, es: seq<Event>)
    requires !s.isAuthenticated
    requires NoAcceptedLogin(es)
    ensures !Run(s, es).isAuthenticated
    ensures Run(s, es).users == s.users && Run(s, es).equipment == s.equipment
    decreases |es|
  {
    if es != [] {
      var s1 := Next(s, es[0]);
      assert !(es[0].LoginSubmitted? && Accepts(es[0].username, es[0].password));
      assert !s1.isAuthenticated && s1.users == s.users && s1.equipment == s.equipment;
      assert NoAcceptedLogin(es[1..]) by {
        forall i | 0 <= i < |es[1..]|
          ensures !(es[1..][i].LoginSubmitted? && Accepts(es[1..][i].username, es[1..][i].password))
        {
          assert es[1..][i] == es[i + 1];
        }
      }
      SignedOutRunKeepsData(s1, es[1..]);
    }
  }

  /** From mounting, both collections stay empty until the first login
      with the accepted pair. */
  lemma EmptyUntilLogin(es: seq<Event>)
    requires NoAcceptedLogin(es)
    ensures !Run(Initial(), es).isAuthenticated
    ensures Run(Initial(), es).users == [] && Run(Initial(), es).equipment == []
  {
    SignedOutRunKeepsData(Initial(), es);
  }

  /** The view-then-edit flow: viewing stored record k, pressing the view
      modal's "Edit" and submitting rewrites record k in place under its own
      id, and leaves every other record as it was. */
  lemma ViewEditEquipmentFlow(s: AppState, k: nat, form: EquipmentFields, now: nat)
    requires Consistent(s)
    requires k < |s.equipment|
    ensures var viewed := Step(s, EquipmentModalOpened(s.equipment[k], ViewKind));
      var editing := Step(viewed, EquipmentEditFromView);
      var r := Step(editing, EquipmentFormSubmitted(form, now));
      editing.equipmentModal == Open(s.equipment[k], EditKind)
      && r.equipment == s.equipment[k := Record(s.equipment[k].id, form)]
      && r.equipmentModal == Closed() && r.users == s.users
  {
    EditSubmitKeepsId(s.equipment[k], form);
    Store.ReplaceUnique(s.equipment, Record(s.equipment[k].id, form), k);
  }

  /** The view-then-edit flow for users. */
  lemma ViewEditUserFlow(s: AppState, k: nat, form: UserFields, now: nat)
    requires Consistent(s)
    requires k < |s.users|
    ensures var viewed := Step(s, UserModalOpened(s.users[k], ViewKind));
      var editing := Step(viewed, UserEditFromView);
      var r := Step(editing, UserFormSubmitted(form, now));
      editing.userModal == Open(s.users[k], EditKind)
      && r.users == s.users[k := Record(s.users[k].id, form)]
      && r.userModal == Closed() && r.equipment == s.equipment
  {
    EditSubmitKeepsId(s.users[k], form);
    Store.ReplaceUnique(s.users, Record(s.users[k].id, form), k);
  }

  /** A logout action from any signed-in state closes the session on the
      login screen and keeps both collections exactly as they were: the
      collections are not cleared on logout. */
  lemma LogoutKeepsRecords(s: AppState)
    requires s.isAuthenticated
    ensures var r := Run(s, [LogoutClicked]);
      !r.isAuthenticated && r.view == LoginView
      && r.users == s.users && r.equipment == s.equipment
  {
    assert [LogoutClicked][1..] == [];
  }

  /** After logging in and out, the session is closed yet the ten seeded
      equipment records and the three seeded users are still held. */
  lemma LoginLogoutKeepsSeed()
    ensures var r := Run(Initial(), [LoginSubmitted(AdminName, AdminPassword), LogoutClicked]);
      !r.isAuthenticated && |r.equipment| == 10 && |r.users| == 3
  {
    var s1 := Next(Initial(), LoginSubmitted(AdminName, AdminPassword));
    assert s1.equipment == Seed.SeedEquipment();
    Seed.SeedEquipmentShape();
    var es := [LoginSubmitted(AdminName, AdminPassword), LogoutClicked];
    assert es[1..] == [LogoutClicked];
    LogoutKeepsRecords(s1);
  }
}
