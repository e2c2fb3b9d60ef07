/** The browser's persisted key/value store, reduced to the one slot the
    application uses: the value under the key `'token'`. */
module Storage {
  import opened Wrappers

  /** JavaScript truthiness of a read value: present and not the empty
      string. */
  predicate Truthy(value: Option<string>) {
    value.Some? && value.value != ""
  }

  class LocalStorage {
    /** `localStorage.getItem('token')`: `None` when the key is absent. */
    var token: Option<string>

    constructor (initial: Option<string>)
      ensures token == initial
    {
      token := initial;
    }

    /** `localStorage.setItem('token', value)` */
    method SetToken(value: string)
      modifies this
      ensures token == Some(value)
    {
      token := Some(value);
    }

    /** `localStorage.removeItem('token')` */
    method RemoveToken()
      modifies this
      ensures token == None
    {
      token := None;
    }
  }
}
