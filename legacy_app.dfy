/**
 * SRC/App.jsx, the older copy of the app: the same `utils`, `storage`,
 * `addSubject`, start-up and auth listener, `addChild`, `deleteChild` and
 * `handleLogout` as src/App.jsx, but no stars, no study sessions and no
 * `removeSubject`. The pure parts (`Utils.Sanitize`, `Storage`,
 * `Roster.AddSubject`, `Roster.RemoveById`) are shared with the newer copy,
 * whose text they match; the component state is its own class here.
 */
module LegacyApp {
  import opened Wrappers
  import opened Roster
  import opened Storage
  import opened Sync

  class App {
    const codec: Codec<Roster>
    const env: Option<string>
    const ready: bool
    var user: Option<Parent>
    var roster: Roster
    var store: Store
    var notice: Option<Notice>
    ghost var trace: seq<Effect>

    constructor (codec: Codec<Roster>, env: Option<string>, ready: bool, store: Store)
      ensures this.codec == codec && this.env == env && this.ready == ready && this.store == store
      ensures user == None && roster == [] && notice == None && trace == []
    {
      this.codec := codec;
      this.env := env;
      this.ready := ready;
      this.store := store;
      user := None;
      roster := [];
      notice := None;
      trace := [];
    }

    function Mirror(): Result<Option<Roster>, StoreError>
      reads this
    {
      Get(store, codec, Secret(env), ChildrenKey)
    }

    predicate SignedIn()
      reads this
    {
      user.Some? && ready
    }

    /** The `onAuthStateChanged` listener; see `Sync.App.OnAuthStateChanged`, whose text this copy repeats. */
    method OnAuthStateChanged(principal: Option<Principal>, parents: Option<seq<Parent>>, cloud: Option<Roster>, now: string)
      requires ready
      modifies this
      ensures principal.None? ==> user == None && roster == old(roster) && store == old(store) && notice == old(notice)
      ensures principal.None? ==> trace == old(trace)
      ensures principal.Some? && (parents.None? || cloud.None?) ==> trace == old(trace) + [Notify(CloudLoadFailed)]
      ensures principal.Some? && parents.None? ==>
        user == old(user) && roster == old(roster) && store == old(store) && notice == Some(CloudLoadFailed)
      ensures principal.Some? && parents.Some? ==>
        var u := principal.value;
        var p := if FindParent(parents.value, u.uid).Some? then FindParent(parents.value, u.uid).value
                 else Parent(u.uid, u.email, u.email, now);
        && user == Some(p)
        && (cloud.None? ==> roster == old(roster) && store == old(store) && notice == Some(CloudLoadFailed))
        && (cloud.Some? ==>
              && roster == cloud.value
              && store == Put(old(store), codec, Secret(env), ChildrenKey, roster)
              && (Sound(codec) ==> Mirror() == Ok(Some(roster)))
              && notice == Some(Welcome(DisplayName(p)))
              && trace == old(trace) + [SetChildren(roster), LocalWrite(ChildrenKey), Notify(Welcome(DisplayName(p)))])
    {
      if principal.None? {
        user := None;
        return;
      }
      if parents.None? {
        notice := Some(CloudLoadFailed);
        trace := trace + [Notify(CloudLoadFailed)];
        return;
      }
      var u := principal.value;
      var found := FindParent(parents.value, u.uid);
      var p := if found.Some? then found.value else Parent(u.uid, u.email, u.email, now);
      user := Some(p);
      if cloud.None? {
        notice := Some(CloudLoadFailed);
        trace := trace + [Notify(CloudLoadFailed)];
        return;
      }
      roster := cloud.value;
      store := Put(store, codec, Secret(env), ChildrenKey, roster);
      GetAfterPutIfSound(old(store), codec, Secret(env), ChildrenKey, roster);
      trace := trace + [SetChildren(roster), LocalWrite(ChildrenKey)];
      notice := Some(Welcome(DisplayName(p)));
      trace := trace + [Notify(Welcome(DisplayName(p)))];
    }

    /** `handleLogout`: as in the newer copy, the user and roster are cleared once `signOut` resolves. */
    method HandleLogout(signOutOk: bool)
      modifies this
      ensures store == old(store)
      ensures !ready || signOutOk ==> user == None && roster == []
      ensures ready && !signOutOk ==> user == old(user) && roster == old(roster) && notice == old(notice)
      ensures !ready ==> notice == old(notice) && trace == old(trace) + [SetChildren([])]
      ensures ready && signOutOk ==>
        notice == Some(LoggedOut) && trace == old(trace) + [SignOut, SetChildren([]), Notify(LoggedOut)]
      ensures ready && !signOutOk ==> trace == old(trace) + [SignOut]
    {
      if !ready {
        user := None;
        roster := [];
        trace := trace + [SetChildren([])];
        return;
      }
      trace := trace + [SignOut];
      if !signOutOk {
        return;
      }
      user := None;
      roster := [];
      notice := Some(LoggedOut);
      trace := trace + [SetChildren([]), Notify(LoggedOut)];
    }

    /** `addChild`: remote save when signed in, then append, write the mirror last, notify. */
    method AddChild(d: Draft, id: string, createdAt: string, remoteOk: bool)
      modifies this
      ensures roster == old(roster) + [NewChild(d, id, createdAt)]
      ensures store == Put(old(store), codec, Secret(env), ChildrenKey, roster)
      ensures Sound(codec) ==> Mirror() == Ok(Some(roster))
      ensures user == old(user) && notice == Some(ChildAdded)
      ensures trace == old(trace)
        + Remote(old(SignedIn()), RemoteSave(Some(NewChild(d, id, createdAt))), remoteOk, SaveFailed)
        + [SetChildren(roster), LocalWrite(ChildrenKey), Notify(ChildAdded)]
    {
      var c := NewChild(d, id, createdAt);
      ghost var remote := Remote(SignedIn(), RemoteSave(Some(c)), remoteOk, SaveFailed);
      if user.Some? && ready && !remoteOk {
        notice := Some(SaveFailed);
      }
      var updated := roster + [c];
      roster := updated;
      store := Put(store, codec, Secret(env), ChildrenKey, updated);
      GetAfterPutIfSound(old(store), codec, Secret(env), ChildrenKey, updated);
      notice := Some(ChildAdded);
      trace := trace + remote + [SetChildren(updated), LocalWrite(ChildrenKey), Notify(ChildAdded)];
    }

    /** `deleteChild`: a no-op unless confirmed; then remote delete when signed in, filter, write the mirror last. */
    method DeleteChild(id: string, confirmed: bool, remoteOk: bool)
      modifies this
      ensures !confirmed ==>
        roster == old(roster) && store == old(store) && notice == old(notice) && trace == old(trace)
      ensures confirmed ==> roster == RemoveById(old(roster), id)
      ensures confirmed ==> store == Put(old(store), codec, Secret(env), ChildrenKey, roster)
      ensures confirmed && Sound(codec) ==> Mirror() == Ok(Some(roster))
      ensures confirmed ==> notice == Some(ChildDeleted)
      ensures confirmed ==>
        trace == old(trace)
          + Remote(old(SignedIn()), RemoteDelete(id), remoteOk, DeleteFailed)
          + [SetChildren(roster), LocalWrite(ChildrenKey), Notify(ChildDeleted)]
      ensures user == old(user)
    {
      if confirmed {
        ghost var remote := Remote(SignedIn(), RemoteDelete(id), remoteOk, DeleteFailed);
        if user.Some? && ready && !remoteOk {
          notice := Some(DeleteFailed);
        }
        var updated := RemoveById(roster, id);
        roster := updated;
        store := Put(store, codec, Secret(env), ChildrenKey, updated);
        GetAfterPutIfSound(old(store), codec, Secret(env), ChildrenKey, updated);
        notice := Some(ChildDeleted);
        trace := trace + remote + [SetChildren(updated), LocalWrite(ChildrenKey), Notify(ChildDeleted)];
      }
    }
  }
}
