/** The display name of the signed-in user, kept in `sessionStorage` under one key. */
module AuthState {
  import opened Browser

  const NameKey := "userName"

  const DefaultUser := "Default User"

  class AuthStateService {
    const storage: SessionStorage

    constructor (storage: SessionStorage)
      ensures this.storage == storage
    {
      this.storage := storage;
    }

    /** `getName()`: the stored name, or "Default User" when there is none. */
    function GetName(): (name: string)
      reads this, storage
      ensures NameKey in storage.items ==> name == storage.items[NameKey]
      ensures NameKey !in storage.items ==> name == DefaultUser
    {
      if NameKey in storage.items then storage.items[NameKey] else DefaultUser
    }

    /** `setName(name)`: a later `getName` returns it; no other entry changes. */
    method SetName(name: string)
      modifies storage
      ensures storage.items == old(storage.items)[NameKey := name]
      ensures GetName() == name
      ensures forall k :: k != NameKey ==> (k in storage.items <==> k in old(storage.items))
      ensures forall k :: k != NameKey && k in storage.items ==> storage.items[k] == old(storage.items)[k]
    {
      storage.items := storage.items[NameKey := name];
    }

    /** `clearName()`: removes the entry, so `getName` falls back to the default; doing it twice is doing it once. */
    method ClearName()
      modifies storage
      ensures storage.items == old(storage.items) - {NameKey}
      ensures GetName() == DefaultUser
    {
      storage.items := storage.items - {NameKey};
    }
  }
}
