/** `LocatorsRepository` (src/bot/repositories/locator.py): the user id ->
    current locator map. The map is a class attribute, so every instance
    reads and writes the same `Store`; a `Handle` names an instance and has
    no influence on the result. */
module LocatorsRepository {

  import opened Base
  import opened Locators

  type Store = map<int, Locator>

  /** An instance of the repository class. */
  datatype Handle = Handle(id: nat)

  /** `restore_locator_by_user_id`: `dict.get`, so an unsaved user yields None. */
  function RestoreLocatorByUserId(store: Store, h: Handle, userId: int): (r: Option<Locator>)
    ensures r.None? <==> userId !in store
    ensures r.Some? ==> r.value == store[userId]
  {
    if userId in store then Some(store[userId]) else None
  }

  /** `save_user_locator`: overwrite the user's entry. */
  function SaveUserLocator(store: Store, h: Handle, userId: int, loc: Locator): (s: Store)
    ensures s.Keys == store.Keys + {userId}
    ensures s[userId] == loc && forall k :: k in store && k != userId ==> s[k] == store[k]
  {
    store[userId := loc]
  }

  /** Read-your-writes, overwrite, and isolation between users. */
  lemma SaveThenRestore(store: Store, h: Handle, userId: int, loc: Locator, other: int)
    ensures RestoreLocatorByUserId(SaveUserLocator(store, h, userId, loc), h, userId) == Some(loc)
    ensures other != userId ==>
      RestoreLocatorByUserId(SaveUserLocator(store, h, userId, loc), h, other) == RestoreLocatorByUserId(store, h, other)
  {
  }

  /** A later save for the same user replaces the earlier one. */
  lemma SaveOverwrites(store: Store, h: Handle, userId: int, first: Locator, second: Locator)
    ensures SaveUserLocator(SaveUserLocator(store, h, userId, first), h, userId, second)
         == SaveUserLocator(store, h, userId, second)
  {
  }

  /** The map is shared by the class: a save through one instance is seen through any other. */
  lemma SharedAcrossInstances(store: Store, writer: Handle, reader: Handle, userId: int, loc: Locator)
    ensures RestoreLocatorByUserId(SaveUserLocator(store, writer, userId, loc), reader, userId) == Some(loc)
  {
  }
}
