/**
 * The `App` and `ParentDashboard` components of src/App.jsx: the handlers
 * that change the roster, the signed-in user and the notification, write the
 * encrypted local mirror, and make best-effort calls to the remote store.
 *
 * A remote call is an input here: `remoteOk` says whether it resolved.
 * `confirmed` is the answer to `window.confirm`. Fresh ids and timestamps
 * are parameters. The ghost `trace` records the order of the effects.
 */
module Sync {
  import opened Wrappers
  import opened Roster
  import opened Utils
  import opened Storage
  import opened StudySession

  /** The one key the app keeps in the local store. */
  const ChildrenKey: string := "children"

  /** The notifications the app shows; the comment gives the type it shows them with. */
  datatype Notice =
    | Welcome(who: string)  // success
    | CloudLoadFailed       // error
    | LoggedOut             // info
    | SaveFailed            // error
    | ChildAdded            // success
    | DeleteFailed          // error
    | ChildDeleted          // info
    | StarSyncFailed        // error
    | StarAwarded           // success

  /**
   * Observable effects, in order. `RemoteSave(None)` is `saveDocument` given
   * `undefined`, which happens when `addStar` finds no child with the id.
   */
  datatype Effect =
    | RemoteSave(doc: Option<Child>)
    | RemoteDelete(id: string)
    | SignOut
    | SetChildren(roster: Roster)
    | LocalWrite(key: string)
    | Notify(notice: Notice)

  /** The guarded remote call: made only when `attempt`, and when it rejects the only addition is `failure`. */
  function Remote(attempt: bool, call: Effect, ok: bool, failure: Notice): seq<Effect>
  {
    if !attempt then [] else if ok then [call] else [call, Notify(failure)]
  }

  /** The principal `onAuthStateChanged` reports. */
  datatype Principal = Principal(uid: string, email: string)

  /** The test `x => x.id === uid` of the listener's `find`. */
  function ParentWithId(uid: string): Parent -> bool
  {
    (x: Parent) => x.id == uid
  }

  /** `parents.find(x => x.id === uid)`: the first stored parent with the uid, if any. */
  function FindParent(parents: seq<Parent>, uid: string): (r: Option<Parent>)
    ensures r.Some? ==> r.value.id == uid && IsFirst(parents, ParentWithId(uid), r.value)
    ensures r.None? <==> forall p :: p in parents ==> p.id != uid
  {
    FindSpec(parents, ParentWithId(uid));
    Find(parents, ParentWithId(uid))
  }

  /** `p.name || p.email`. */
  function DisplayName(p: Parent): (r: string)
    ensures r == p.name || r == p.email
    ensures r == "" <==> p.name == "" && p.email == ""
    ensures p.name != "" ==> r == p.name
  {
    if p.name != "" then p.name else p.email
  }

  class App {
    const codec: Codec<Roster>
    /** `VITE_APP_STORAGE_SECRET`, if set. */
    const env: Option<string>
    /** What `initFirebase` returned; `isInitialized()` thereafter. */
    const ready: bool
    var user: Option<Parent>
    var roster: Roster
    var store: Store
    var notice: Option<Notice>
    ghost var trace: seq<Effect>

    /** The first render: no user, no children, no notification; `store` is what the browser kept. */
    constructor (codec: Codec<Roster>, env: Option<string>, ready: bool, store: Store)
      ensures this.codec == codec && this.env == env && this.ready == ready && this.store == store
      ensures user == None && roster == [] && notice == None && trace == []
    {
      this.codec := codec;
      this.env := env;
      this.ready := ready;
      this.store := store;
      user := None;
      roster := [];
      notice := None;
      trace := [];
    }

    /** What `storage.getEncrypted('children')` returns in this state. */
    function Mirror(): Result<Option<Roster>, StoreError>
      reads this
    {
      Get(store, codec, Secret(env), ChildrenKey)
    }

    /** `user && isInitialized()`: the guard of every remote call. */
    predicate SignedIn()
      reads this
    {
      user.Some? && ready
    }

    /**
     * The start-up read of the local mirror: a cached roster replaces the
     * in-memory one; a miss leaves it; a parse failure escapes the async
     * block and changes nothing.
     */
    method RestoreFromCache()
      modifies this
      ensures old(Mirror()).Ok? && old(Mirror()).value.Some? ==>
        roster == old(Mirror()).value.value && trace == old(trace) + [SetChildren(roster)]
      ensures !(old(Mirror()).Ok? && old(Mirror()).value.Some?) ==>
        roster == old(roster) && trace == old(trace)
      ensures user == old(user) && store == old(store) && notice == old(notice)
    {
      var cached := Get(store, codec, Secret(env), ChildrenKey);
      if cached.Ok? && cached.value.Some? {
        roster := cached.value.value;
        trace := trace + [SetChildren(roster)];
      }
    }

    /**
     * The `onAuthStateChanged` listener, installed only when Firebase is
     * initialised. `parents` and `cloud` are the two `getCollection` calls
     * (`None` when they reject); `now` is the `createdAt` of a parent with
     * no stored record.
     */
    method OnAuthStateChanged(principal: Option<Principal>, parents: Option<seq<Parent>>, cloud: Option<Roster>, now: string)
      requires ready
      modifies this
      ensures principal.None? ==> user == None && roster == old(roster) && store == old(store) && notice == old(notice)
      ensures principal.None? ==> trace == old(trace)
      ensures principal.Some? && (parents.None? || cloud.None?) ==> trace == old(trace) + [Notify(CloudLoadFailed)]
      ensures principal.Some? && parents.None? ==>
        user == old(user) && roster == old(roster) && store == old(store) && notice == Some(CloudLoadFailed)
      ensures principal.Some? && parents.Some? ==>
        var u := principal.value;
        var p := if FindParent(parents.value, u.uid).Some? then FindParent(parents.value, u.uid).value
                 else Parent(u.uid, u.email, u.email, now);
        && user == Some(p)
        && (cloud.None? ==> roster == old(roster) && store == old(store) && notice == Some(CloudLoadFailed))
        && (cloud.Some? ==>
              && roster == cloud.value
              && store == Put(old(store), codec, Secret(env), ChildrenKey, roster)
              && (Sound(codec) ==> Mirror() == Ok(Some(roster)))
              && notice == Some(Welcome(DisplayName(p)))
              && trace == old(trace) + [SetChildren(roster), LocalWrite(ChildrenKey), Notify(Welcome(DisplayName(p)))])
    {
      if principal.None? {
        user := None;
        return;
      }
      if parents.None? {
        notice := Some(CloudLoadFailed);
        trace := trace + [Notify(CloudLoadFailed)];
        return;
      }
      var u := principal.value;
      var found := FindParent(parents.value, u.uid);
      var p := if found.Some? then found.value else Parent(u.uid, u.email, u.email, now);
      user := Some(p);
      if cloud.None? {
        notice := Some(CloudLoadFailed);
        trace := trace + [Notify(CloudLoadFailed)];
        return;
      }
      roster := cloud.value;
      trace := trace + [SetChildren(roster)];
      store := Put(store, codec, Secret(env), ChildrenKey, roster);
      trace := trace + [LocalWrite(ChildrenKey)];
      GetAfterPutIfSound(old(store), codec, Secret(env), ChildrenKey, roster);
      notice := Some(Welcome(DisplayName(p)));
      trace := trace + [Notify(Welcome(DisplayName(p)))];
    }

    /**
     * `handleLogout`: without Firebase, clear the user and the roster at once;
     * otherwise await `signOut` (`signOutOk` says whether it resolved) and
     * then clear them and notify. The local mirror is left as it was.
     */
    method HandleLogout(signOutOk: bool)
      modifies this
      ensures store == old(store)
      ensures !ready || signOutOk ==> user == None && roster == []
      ensures ready && !signOutOk ==> user == old(user) && roster == old(roster) && notice == old(notice)
      ensures !ready ==> notice == old(notice) && trace == old(trace) + [SetChildren([])]
      ensures ready && signOutOk ==>
        notice == Some(LoggedOut) && trace == old(trace) + [SignOut, SetChildren([]), Notify(LoggedOut)]
      ensures ready && !signOutOk ==> trace == old(trace) + [SignOut]
    {
      if !ready {
        user := None;
        roster := [];
        trace := trace + [SetChildren([])];
        return;
      }
      trace := trace + [SignOut];
      if !signOutOk {
        return;
      }
      user := None;
      roster := [];
      notice := Some(LoggedOut);
      trace := trace + [SetChildren([]), Notify(LoggedOut)];
    }

    /**
     * `addChild`: build the child, try the remote save when signed in, then
     * append, write the local mirror last and notify. The outcome of the
     * remote call shows only in the trace: the roster, the store and the final
     * notification are the same whether it resolved, rejected or was skipped.
     */
    method AddChild(d: Draft, id: string, createdAt: string, remoteOk: bool)
      modifies this
      ensures roster == old(roster) + [NewChild(d, id, createdAt)]
      ensures store == Put(old(store), codec, Secret(env), ChildrenKey, roster)
      ensures Sound(codec) ==> Mirror() == Ok(Some(roster))
      ensures user == old(user) && notice == Some(ChildAdded)
      ensures trace == old(trace)
        + Remote(old(SignedIn()), RemoteSave(Some(NewChild(d, id, createdAt))), remoteOk, SaveFailed)
        + [SetChildren(roster), LocalWrite(ChildrenKey), Notify(ChildAdded)]
    {
      var c := NewChild(d, id, createdAt);
      ghost var remote := Remote(SignedIn(), RemoteSave(Some(c)), remoteOk, SaveFailed);
      if user.Some? && ready && !remoteOk {
        notice := Some(SaveFailed);
      }
      var updated := roster + [c];
      roster := updated;
      store := Put(store, codec, Secret(env), ChildrenKey, updated);
      GetAfterPutIfSound(old(store), codec, Secret(env), ChildrenKey, updated);
      notice := Some(ChildAdded);
      trace := trace + remote + [SetChildren(updated), LocalWrite(ChildrenKey), Notify(ChildAdded)];
    }

    /**
     * `deleteChild`: nothing at all happens unless the deletion is confirmed;
     * then the remote delete is tried when signed in, every child with the id
     * is removed, the local mirror is written last and a notice is shown.
     */
    method DeleteChild(id: string, confirmed: bool, remoteOk: bool)
      modifies this
      ensures !confirmed ==>
        roster == old(roster) && store == old(store) && notice == old(notice) && trace == old(trace)
      ensures confirmed ==> roster == RemoveById(old(roster), id)
      ensures confirmed ==> store == Put(old(store), codec, Secret(env), ChildrenKey, roster)
      ensures confirmed && Sound(codec) ==> Mirror() == Ok(Some(roster))
      ensures confirmed ==> notice == Some(ChildDeleted)
      ensures confirmed ==>
        trace == old(trace)
          + Remote(old(SignedIn()), RemoteDelete(id), remoteOk, DeleteFailed)
          + [SetChildren(roster), LocalWrite(ChildrenKey), Notify(ChildDeleted)]
      ensures user == old(user)
    {
      if confirmed {
        ghost var remote := Remote(SignedIn(), RemoteDelete(id), remoteOk, DeleteFailed);
        if user.Some? && ready && !remoteOk {
          notice := Some(DeleteFailed);
        }
        var updated := RemoveById(roster, id);
        roster := updated;
        store := Put(store, codec, Secret(env), ChildrenKey, updated);
        GetAfterPutIfSound(old(store), codec, Secret(env), ChildrenKey, updated);
        notice := Some(ChildDeleted);
        trace := trace + remote + [SetChildren(updated), LocalWrite(ChildrenKey), Notify(ChildDeleted)];
      }
    }

    /**
     * `addStar`: give every child with the id one more star, write the local
     * mirror, and only then try to save the updated child remotely.
     */
    method AddStar(childId: string, remoteOk: bool)
      modifies this
      ensures roster == AddStarTo(old(roster), childId)
      ensures store == Put(old(store), codec, Secret(env), ChildrenKey, roster)
      ensures Sound(codec) ==> Mirror() == Ok(Some(roster))
      ensures user == old(user) && notice == Some(StarAwarded)
      ensures trace == old(trace)
        + [SetChildren(roster), LocalWrite(ChildrenKey)]
        + Remote(old(SignedIn()), RemoteSave(FindById(roster, childId)), remoteOk, StarSyncFailed)
        + [Notify(StarAwarded)]
    {
      roster := AddStarTo(roster, childId);
      store := Put(store, codec, Secret(env), ChildrenKey, roster);
      GetAfterPutIfSound(old(store), codec, Secret(env), ChildrenKey, roster);
      ghost var remote := Remote(SignedIn(), RemoteSave(FindById(roster, childId)), remoteOk, StarSyncFailed);
      if user.Some? && ready && !remoteOk {
        notice := Some(StarSyncFailed);
      }
      notice := Some(StarAwarded);
      trace := trace + [SetChildren(roster), LocalWrite(ChildrenKey)] + remote + [Notify(StarAwarded)];
    }
  }

  /** `activeSession`: the child and the subject being studied. */
  datatype Session = Session(childId: string, subject: Subject)

  /**
   * `ParentDashboard`'s session slot. While a session is active the
   * dashboard renders only the `StudySession` component, whose countdown is
   * `timer`; `onComplete` is `endSession(activeSession.childId)` and
   * `onCancel` is `cancelSession`.
   */
  class Dashboard {
    const app: App
    var active: Option<Session>
    var timer: Countdown?

    ghost predicate Valid()
      reads this, timer
    {
      (timer == null <==> active.None?) && (timer != null ==> timer.Valid())
    }

    constructor (app: App)
      ensures Valid() && this.app == app && active == None && timer == null
    {
      this.app := app;
      active := None;
      timer := null;
    }

    /**
     * `startSession`: the start buttons are rendered only when no session is
     * active, so none is.
     */
    method StartSession(childId: string, subject: Subject)
      requires Valid() && active.None?
      modifies this
      ensures Valid() && active == Some(Session(childId, subject))
      ensures fresh(timer) && timer.State() == Timer(InitialSeconds(subject), true) && timer.fired == 0
    {
      active := Some(Session(childId, subject));
      timer := new Countdown(subject);
    }

    /**
     * `endSession`: award the star, then clear the active session, which
     * unmounts the countdown and clears its interval.
     */
    method EndSession(childId: string, remoteOk: bool)
      requires Valid()
      modifies this, app, if timer == null then {} else {timer}
      ensures Valid() && active == None && timer == null
      ensures app.roster == AddStarTo(old(app.roster), childId)
      ensures app.notice == Some(StarAwarded) && app.user == old(app.user)
      ensures app.trace == old(app.trace) + [SetChildren(app.roster), LocalWrite(ChildrenKey)]
        + Remote(old(app.SignedIn()), RemoteSave(FindById(app.roster, childId)), remoteOk, StarSyncFailed)
        + [Notify(StarAwarded)]
      ensures app.store == Put(old(app.store), app.codec, Secret(app.env), ChildrenKey, app.roster)
      ensures Sound(app.codec) ==> app.Mirror() == Ok(Some(app.roster))
      ensures old(timer) != null ==> !old(timer).running && old(timer).fired == old(timer.fired)
    {
      app.AddStar(childId, remoteOk);
      if timer != null {
        timer.Teardown();
      }
      active := None;
      timer := null;
    }

    /** `cancelSession`: clear the active session with no award. */
    method CancelSession()
      requires Valid()
      modifies this, if timer == null then {} else {timer}
      ensures Valid() && active == None && timer == null
      ensures old(timer) != null ==> !old(timer).running && old(timer).fired == old(timer.fired)
    {
      if timer != null {
        timer.Teardown();
      }
      active := None;
      timer := null;
    }

    /**
     * One delivery of the countdown's interval. When it completes, the star
     * goes to the session's child exactly once and the session ends;
     * otherwise the roster and the session are untouched.
     */
    method Tick(remoteOk: bool) returns (completed: bool)
      requires Valid() && timer != null
      modifies this, app, timer
      ensures Valid()
      ensures completed <==> Step(old(timer.State())).fired
      ensures completed ==>
        && active == None && timer == null && old(timer).fired == 1
        && app.roster == AddStarTo(old(app.roster), old(active).value.childId)
        && app.store == Put(old(app.store), app.codec, Secret(app.env), ChildrenKey, app.roster)
        && (Sound(app.codec) ==> app.Mirror() == Ok(Some(app.roster)))
        && app.user == old(app.user) && app.notice == Some(StarAwarded)
        && app.trace == old(app.trace) + [SetChildren(app.roster), LocalWrite(ChildrenKey)]
           + Remote(old(app.SignedIn()), RemoteSave(FindById(app.roster, old(active).value.childId)), remoteOk, StarSyncFailed)
           + [Notify(StarAwarded)]
      ensures !completed ==>
        && active == old(active) && timer == old(timer)
        && timer.State() == Step(old(timer.State())).next && unchanged(app)
    {
      completed := timer.Tick();
      if completed {
        EndSession(active.value.childId, remoteOk);
      }
    }
  }
}
