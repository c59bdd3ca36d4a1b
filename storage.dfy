/**
 * Browser storage as the pages use it: a map from string keys to stored
 * values. A stored value is either plain text (the `'true'` flags, a
 * remembered e-mail, a token), the JSON text of a list of users or of one
 * user, or text that does not parse as either.
 */
module Storage {
  import opened Wrappers

  /** A registered user as the registration page writes it. */
  datatype User = User(
    id: string,
    firstName: string,
    lastName: string,
    email: string,
    username: string,
    password: string,
    demoPassword: Option<string>,
    phone: string,
    joinDate: string)

  /**
   * A stored string, by how the pages read it. Keys that hold JSON read as
   * `UsersJson`, `UserJson` or `Garbled` (text that does not parse). Keys read
   * as raw text (`rememberedEmail`, `token`, `isLoggedIn`, `rememberMe`) only
   * ever hold `Text`, since the pages write nothing else there.
   */
  datatype Stored =
    | Text(text: string)
    | UsersJson(users: seq<User>)
    | UserJson(user: User)
    | Garbled

  const UsersKey := "perfume_users"
  const CurrentUserKey := "perfume_user"
  const LoggedInKey := "isLoggedIn"
  const TokenKey := "token"
  const SessionUserKey := "user"
  const RememberMeKey := "rememberMe"
  const RememberedEmailKey := "rememberedEmail"

  /**
   * `if (value)` on what `getItem` returned: a missing key and the empty
   * string are falsy; every JSON text is non-empty.
   */
  predicate Truthy(v: Option<Stored>)
  {
    v.Some? && v.value != Text("")
  }

  /** The key-value store; pages read and write it one key at a time. */
  class LocalStorage {
    var entries: map<string, Stored>

    constructor (initial: map<string, Stored>)
      ensures entries == initial
    {
      entries := initial;
    }

    method SetItem(key: string, value: Stored)
      modifies this
      ensures entries == old(entries)[key := value]
    {
      entries := entries[key := value];
    }

    method RemoveItem(key: string)
      modifies this
      ensures entries == old(entries) - {key}
    {
      entries := entries - {key};
    }
  }
}
