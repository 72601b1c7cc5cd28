/**
 * The `storage` object of src/App.jsx (identical in SRC/App.jsx): a value is
 * serialised with `JSON.stringify`, encrypted with AES under a secret and
 * kept as ciphertext under a key of the browser's local key-value store.
 *
 * The cipher and the JSON codec are foreign code. They are passed in as a
 * `Codec` of function values; what the model assumes of them is the
 * predicate `Sound`, which the round-trip lemma takes as a hypothesis.
 */
module Storage {
  import opened Wrappers

  /** The local key-value namespace: key to ciphertext. */
  type Store = map<string, string>

  /** Used when `VITE_APP_STORAGE_SECRET` is unset or empty. */
  const DefaultSecret: string := "change_this_secret_in_prod"

  /** `import.meta.env.VITE_APP_STORAGE_SECRET || 'change_this_secret_in_prod'`. */
  function Secret(env: Option<string>): (k: string)
    ensures k != ""
    ensures k == DefaultSecret <==> env == None || env.value in {"", DefaultSecret}
    ensures k != DefaultSecret ==> env == Some(k)
  {
    if env.Some? && env.value != "" then env.value else DefaultSecret
  }

  /**
   * The foreign operations. `decrypt` yields `None` when CryptoJS throws
   * (the `catch` of `utils.decrypt`); `parse` yields `None` when
   * `JSON.parse` throws.
   */
  datatype Codec<!V> = Codec(
    encrypt: (string, string) -> string,
    decrypt: (string, string) -> Option<string>,
    stringify: V -> string,
    parse: string -> Option<V>)

  /**
   * What AES and JSON are taken to guarantee: decryption under the same
   * secret undoes encryption, parsing undoes serialisation, and neither a
   * ciphertext nor a serialised value is the empty text.
   */
  ghost predicate Sound<V(!new)>(c: Codec<V>)
  {
    && (forall p, k :: c.encrypt(p, k) != "" && c.decrypt(c.encrypt(p, k), k) == Some(p))
    && (forall v :: c.stringify(v) != "" && c.parse(c.stringify(v)) == Some(v))
  }

  datatype StoreError = MalformedJson

  /** `storage.setEncrypted(key, value)`: overwrite `key` with the encrypted serialisation of `value`. */
  function Put<V>(store: Store, c: Codec<V>, secret: string, key: string, value: V): (r: Store)
    ensures key in r && r[key] == c.encrypt(c.stringify(value), secret)
    ensures forall k :: k != key ==> (k in r <==> k in store)
    ensures forall k :: k != key && k in store ==> r[k] == store[k]
  {
    store[key := c.encrypt(c.stringify(value), secret)]
  }

  /**
   * `storage.getEncrypted(key)`: `Ok(None)` is the `null` it returns for an
   * absent or empty ciphertext, a failed decryption or an empty plaintext;
   * `Err(MalformedJson)` is the exception `JSON.parse` raises, which the
   * source does not catch.
   */
  function Get<V>(store: Store, c: Codec<V>, secret: string, key: string): (r: Result<Option<V>, StoreError>)
    ensures key !in store ==> r == Ok(None)
    ensures r.Err? <==>
      key in store && store[key] != "" &&
      c.decrypt(store[key], secret).Some? && c.decrypt(store[key], secret).value != "" &&
      c.parse(c.decrypt(store[key], secret).value).None?
    ensures r.Ok? && r.value.Some? <==>
      key in store && store[key] != "" &&
      c.decrypt(store[key], secret).Some? && c.decrypt(store[key], secret).value != "" &&
      c.parse(c.decrypt(store[key], secret).value).Some?
    ensures r.Ok? && r.value.Some? ==>
      key in store && c.decrypt(store[key], secret).Some? &&
      c.parse(c.decrypt(store[key], secret).value) == Some(r.value.value)
  {
    if key !in store || store[key] == "" then Ok(None)
    else
      match c.decrypt(store[key], secret)
      case None => Ok(None)
      case Some(plain) =>
        if plain == "" then Ok(None)
        else
          match c.parse(plain)
          case None => Err(MalformedJson)
          case Some(v) => Ok(Some(v))
  }

  /** Reading a key back under the secret it was written with yields the value written. */
  lemma GetAfterPut<V(!new)>(store: Store, c: Codec<V>, secret: string, key: string, value: V)
    requires Sound(c)
    ensures Get(Put(store, c, secret, key, value), c, secret, key) == Ok(Some(value))
  {
    var cipher := c.encrypt(c.stringify(value), secret);
    assert cipher != "" && c.decrypt(cipher, secret) == Some(c.stringify(value));
    assert c.stringify(value) != "" && c.parse(c.stringify(value)) == Some(value);
  }

  /** The same, for callers that do not know whether the codec is sound. */
  lemma GetAfterPutIfSound<V(!new)>(store: Store, c: Codec<V>, secret: string, key: string, value: V)
    ensures Sound(c) ==> Get(Put(store, c, secret, key, value), c, secret, key) == Ok(Some(value))
  {
    if Sound(c) { GetAfterPut(store, c, secret, key, value); }
  }

  /** Writing one key does not change what any other key reads back. */
  lemma GetOtherKey<V>(store: Store, c: Codec<V>, secret: string, key: string, other: string, value: V)
    requires other != key
    ensures Get(Put(store, c, secret, key, value), c, secret, other) == Get(store, c, secret, other)
  {
    assert Put(store, c, secret, key, value) - {key} == store - {key};
    var s' := Put(store, c, secret, key, value);
    assert (other in s') == (other in store);
    assert other in store ==> s'[other] == store[other];
  }
}
