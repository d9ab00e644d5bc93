/**
 * What the remote keypad page and the camera page share about keys: the
 * stored title/description record of each key, the description lookup
 * and the same-key copy cooldown.
 */
module KeyCopy {
  import opened Wrappers
  import opened Text

  /** One `keyData[num]` record; either field may be missing after a reload. */
  datatype KeyEntry = KeyEntry(title: Option<string>, description: Option<string>)

  /** Milliseconds during which the last stamped key is not copied again. */
  const CopyCooldownMs: int := 2000

  /** `keyData[key]?.description || ""`. */
  function DescriptionOf(keyData: map<string, KeyEntry>, key: string): (d: string)
    ensures key !in keyData ==> d == ""
    ensures key in keyData && Truthy(keyData[key].description) ==> d == keyData[key].description.value
    ensures d != "" ==> key in keyData && keyData[key].description == Some(d)
  {
    if key in keyData && Truthy(keyData[key].description) then keyData[key].description.value else ""
  }

  /**
   * The early return of the copy routine: the request names the key of the
   * last stamp and fewer than `CopyCooldownMs` milliseconds have passed.
   * `lastKey` is `None` before the first stamp.
   */
  predicate Blocked<K(==)>(lastKey: Option<K>, lastTime: int, key: K, now: int): (b: bool)
    ensures b ==> lastKey.Some? && lastKey.value == key
    ensures lastKey == Some(key) ==> (b <==> now < lastTime + CopyCooldownMs)
  {
    lastKey == Some(key) && now - lastTime < CopyCooldownMs
  }

  /** A key other than the last stamped one is never blocked. */
  lemma OtherKeyPasses<K>(lastKey: Option<K>, lastTime: int, key: K, now: int)
    requires lastKey != Some(key)
    ensures !Blocked(lastKey, lastTime, key, now)
  {
  }

  /** The last stamped key is blocked exactly inside the window after its stamp. */
  lemma SameKeyWindow<K>(key: K, stamp: int, now: int)
    ensures Blocked(Some(key), stamp, key, now) <==> now < stamp + CopyCooldownMs
  {
  }
}
