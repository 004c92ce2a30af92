/** The session store of src/contexts/AuthContext.tsx: the signed-in `user`,
    the `isLoading` flag, and the browser's key/value storage, in which the
    provider keeps the user under one key. Values are stored as `User`
    records directly (the JSON round trip is taken to be the identity). */
module AuthContext {
  import opened Common
  import opened Roles

  datatype User = User(id: string, email: string, name: string, role: Role, companyId: string)

  const StorageKey := "buildpro_user"
  const ProviderMissing := "useAuth must be used within an AuthProvider"

  /** The user the mock `login` creates for `email`. */
  function MockUser(email: string): User
  {
    User("1", email, "John Smith", Admin, "company-1")
  }

  /** The user the init effect restores from `storage`, if one is stored. */
  function Restored(storage: map<string, User>): Option<User>
  {
    if StorageKey in storage then Some(storage[StorageKey]) else None
  }

  /** The storage after `login(email, _)`. */
  function StoredAfterLogin(storage: map<string, User>, email: string): (s: map<string, User>)
    ensures StorageKey in s && s[StorageKey] == MockUser(email)
    ensures forall k :: k != StorageKey ==> (k in s <==> k in storage)
    ensures forall k :: k != StorageKey && k in s ==> s[k] == storage[k]
  {
    storage[StorageKey := MockUser(email)]
  }

  /** The storage after `logout()`. */
  function StoredAfterLogout(storage: map<string, User>): (s: map<string, User>)
    ensures StorageKey !in s
    ensures forall k :: k != StorageKey ==> (k in s <==> k in storage)
    ensures forall k :: k in s ==> s[k] == storage[k]
  {
    storage - {StorageKey}
  }

  /** What the provider hands to its consumers. */
  datatype ContextValue = ContextValue(user: Option<User>, isLoading: bool)

  class AuthProvider {
    var user: Option<User>
    var isLoading: bool
    var storage: map<string, User>

    /** Mounting: no user yet, and loading until the init effect has run. */
    constructor(storage0: map<string, User>)
      ensures user == None && isLoading && storage == storage0
    {
      user := None;
      isLoading := true;
      storage := storage0;
    }

    /** The mount effect: restore the stored user, if any, and stop loading.
        With nothing stored the user is left as it was (`None` on mount). */
    method Init()
      modifies this
      ensures user == (if StorageKey in old(storage) then Restored(old(storage)) else old(user))
      ensures !isLoading && storage == old(storage)
    {
      if StorageKey in storage {
        user := Some(storage[StorageKey]);
      }
      isLoading := false;
    }

    /** Mock login: the password is not consulted; the user is an admin with
        the given email, and is written to storage. */
    method Login(email: string, password: string)
      modifies this
      ensures user == Some(MockUser(email)) && user.value.role == Admin
      ensures storage == StoredAfterLogin(old(storage), email)
      ensures !isLoading
    {
      isLoading := true;
      var mockUser := MockUser(email);
      user := Some(mockUser);
      storage := storage[StorageKey := mockUser];
      isLoading := false;
    }

    /** Logout clears the user and removes only the provider's key. */
    method Logout()
      modifies this
      ensures user == None
      ensures storage == StoredAfterLogout(old(storage))
      ensures isLoading == old(isLoading)
    {
      user := None;
      storage := storage - {StorageKey};
    }
  }

  /** `useAuth`: the provider's value, or the error thrown outside a provider. */
  function UseAuth(context: Option<ContextValue>): (r: Result<ContextValue, string>)
    ensures r.Err? <==> context.None?
    ensures r.Err? ==> r.error == ProviderMissing
    ensures r.Ok? ==> r.value == context.value
  {
    match context
    case None => Err(ProviderMissing)
    case Some(v) => Ok(v)
  }

  /** Store-then-restore: a user logged in, then the page reloaded; the new
      provider's init effect restores exactly the user `login` created. */
  method LoginThenReload(storage0: map<string, User>, email: string, password: string)
    returns (restored: Option<User>, loadingAfterInit: bool)
    ensures restored == Some(MockUser(email))
    ensures !loadingAfterInit
  {
    var first := new AuthProvider(storage0);
    first.Init();
    first.Login(email, password);
    var second := new AuthProvider(first.storage);
    second.Init();
    restored, loadingAfterInit := second.user, second.isLoading;
  }

  /** Logout-then-reload: nothing is restored, whatever was stored before. */
  method LogoutThenReload(storage0: map<string, User>) returns (restored: Option<User>)
    ensures restored == None
  {
    var first := new AuthProvider(storage0);
    first.Init();
    first.Logout();
    var second := new AuthProvider(first.storage);
    second.Init();
    restored := second.user;
  }

  /** The storage transitions round-trip through `Restored`, and login and
      logout touch no other key. */
  lemma StorageRoundTrip(storage: map<string, User>, email: string, k: string)
    ensures Restored(StoredAfterLogin(storage, email)) == Some(MockUser(email))
    ensures Restored(StoredAfterLogout(storage)) == None
    ensures Restored(StoredAfterLogout(StoredAfterLogin(storage, email))) == None
    ensures k != StorageKey ==>
              (k in StoredAfterLogout(StoredAfterLogin(storage, email)) <==> k in storage)
  {
  }
}
