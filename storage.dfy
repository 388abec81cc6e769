/**
 * The browser's `localStorage`, shared by the session store and the signup
 * page. Values are kept structured instead of as JSON text: the two keys
 * the application owns hold a session record and the user list, and any
 * other key (owned by other code on the same origin) holds opaque text.
 */
module Storage {
  import opened Wrappers

  /** The `user` object of a session: `{ email }`. */
  datatype SessionUser = SessionUser(email: string)

  /** One entry of the stored `users` array, as the signup page writes it. */
  datatype UserRecord = UserRecord(id: string, name: string, email: string, password: string, createdAt: string)

  datatype Stored =
    | AuthData(user: SessionUser)
    | UserList(users: seq<UserRecord>)
    | Text(raw: string)

  const AuthKey: string := "auth"
  const UsersKey: string := "users"

  /** The two keys the application owns hold values of the shape it writes. */
  predicate WellFormed(items: map<string, Stored>) {
    && (AuthKey in items ==> items[AuthKey].AuthData?)
    && (UsersKey in items ==> items[UsersKey].UserList?)
  }

  /** `JSON.parse(localStorage.getItem('users') || '[]')`. */
  function StoredUsers(items: map<string, Stored>): (users: seq<UserRecord>)
    requires WellFormed(items)
    ensures UsersKey !in items ==> users == []
    ensures UsersKey in items ==> items[UsersKey] == UserList(users)
  {
    if UsersKey in items then items[UsersKey].users else []
  }

  /** `m` and `m'` agree on every key other than `key`. */
  ghost predicate SameExcept(m: map<string, Stored>, m': map<string, Stored>, key: string) {
    forall k :: k != key ==> (k in m <==> k in m') && (k in m ==> m[k] == m'[k])
  }

  class LocalStorage {
    var items: map<string, Stored>

    ghost predicate Valid()
      reads this
    {
      WellFormed(items)
    }

    constructor (initial: map<string, Stored>)
      ensures items == initial
    {
      items := initial;
    }

    function GetItem(key: string): (v: Option<Stored>)
      reads this
      ensures v.Some? <==> key in items
      ensures v.Some? ==> v.value == items[key]
    {
      if key in items then Some(items[key]) else None
    }

    method SetItem(key: string, value: Stored)
      modifies this
      ensures items == old(items)[key := value]
    {
      items := items[key := value];
    }

    method RemoveItem(key: string)
      modifies this
      ensures items == old(items) - {key}
    {
      items := items - {key};
    }
  }
}
