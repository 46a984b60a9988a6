/** The client-side session: the signed-in demo user, the loading flag,
    and the copy of the user kept in browser storage. */
module Auth {
  import opened Common

  datatype User = User(id: string, name: string, email: string, mykadId: string, isBumiputera: bool)

  /** The storage slot under the session key: nothing, a user saved by an
      earlier sign-in, or text that does not parse as a user. */
  datatype Slot = Empty | Holds(user: User) | Corrupt

  const Password: string := "password123"

  const DemoUsers: seq<User> := [
    User("1", "Ahmad bin Abdullah", "ahmad@example.com", "850123-14-5678", true),
    User("2", "Siti binti Rahman", "siti@example.com", "920456-03-1234", true)
  ]

  /** The first demo user with that email, as `Array.prototype.find` gives. */
  function FindDemoUser(email: string): (r: Option<User>)
    ensures r.None? <==> forall i :: 0 <= i < |DemoUsers| ==> DemoUsers[i].email != email
    ensures r.Some? ==> r.value.email == email &&
                        exists i :: 0 <= i < |DemoUsers| && DemoUsers[i] == r.value &&
                                    forall j :: 0 <= j < i ==> DemoUsers[j].email != email
  {
    if DemoUsers[0].email == email then Some(DemoUsers[0])
    else if DemoUsers[1].email == email then Some(DemoUsers[1])
    else None
  }

  /** Each demo account is found by its own email. */
  lemma DemoAccountsFound()
    ensures forall i :: 0 <= i < |DemoUsers| ==> FindDemoUser(DemoUsers[i].email) == Some(DemoUsers[i])
    ensures FindDemoUser("") == None
  {
    assert DemoUsers[0].email != DemoUsers[1].email by {
      assert DemoUsers[0].email[0] != DemoUsers[1].email[0];
    }
  }

  /** The provider's state. `storage` stands for the browser's storage
      slot, which outlives the provider. */
  class AuthProvider {
    var user: Option<User>
    var isLoading: bool
    var mounted: bool
    var storage: Slot

    /** The signed-in user and the stored copy agree. */
    ghost predicate Synced()
      reads this
    {
      storage == (match user case None => Empty case Some(u) => Holds(u))
    }

    /** A fresh provider: nobody signed in, loading, not yet mounted. */
    constructor (stored: Slot)
      ensures user.None? && isLoading && !mounted && storage == stored
    {
      user := None;
      isLoading := true;
      mounted := false;
      storage := stored;
    }

    /** The mount effect: a stored user is restored, corrupt storage is
        removed and leaves nobody signed in, and loading ends. */
    method Mount()
      modifies this
      ensures mounted && !isLoading
      ensures old(storage).Holds? ==> user == Some(old(storage).user) && storage == old(storage)
      ensures old(storage).Corrupt? ==> user == old(user) && storage == Empty
      ensures old(storage).Empty? ==> user == old(user) && storage == Empty
      ensures old(user).None? ==> Synced()
    {
      mounted := true;
      match storage {
        case Holds(u) =>
          user := Some(u);
        case Corrupt =>
          storage := Empty;
        case Empty =>
      }
      isLoading := false;
    }

    /** The start of a sign-in, before the simulated delay. */
    method BeginLogin()
      modifies this
      ensures isLoading
      ensures user == old(user) && storage == old(storage) && mounted == old(mounted)
    {
      isLoading := true;
    }

    /** The end of a sign-in, after the delay: it succeeds exactly for a
        demo email with the shared password, and then signs that user in
        and stores them; a failure changes nothing but the loading flag,
        which is off either way. */
    method FinishLogin(email: string, password: string) returns (ok: bool)
      modifies this
      ensures ok <==> FindDemoUser(email).Some? && password == Password
      ensures ok ==> user == FindDemoUser(email) && storage == Holds(FindDemoUser(email).value)
      ensures !ok ==> user == old(user) && storage == old(storage)
      ensures !isLoading && mounted == old(mounted)
      ensures old(Synced()) ==> Synced()
    {
      var demoUser := FindDemoUser(email);
      if demoUser.Some? && password == Password {
        user := demoUser;
        storage := Holds(demoUser.value);
        isLoading := false;
        return true;
      }
      isLoading := false;
      return false;
    }

    /** Signing out clears the user and the stored copy; the state it
        leaves does not depend on the state before, so a second sign-out
        changes nothing. */
    method Logout()
      modifies this
      ensures user.None? && storage == Empty
      ensures isLoading == old(isLoading) && mounted == old(mounted)
      ensures Synced()
    {
      user := None;
      storage := Empty;
    }
  }
}
