/**
 The key-value cache the handlers share. Expiry is not modelled as time: an
 expired entry is simply a key the map does not hold.
 */
module Cache {
  import opened Wrappers

  type Entries = map<string, string>

  const ImagePrefix: string := "ImageCodeId_"
  const SmsPrefix: string := "SMS_"

  /** Where the captcha text for one captcha id is staged. */
  function ImageKey(imageCodeId: string): string
  {
    ImagePrefix + imageCodeId
  }

  /** Where the SMS code for one mobile number is staged. */
  function SmsKey(mobile: string): string
  {
    SmsPrefix + mobile
  }

  /** `get(key)`: the staged value, or None for a key never set or expired. */
  function Lookup(c: Entries, key: string): Option<string>
  {
    if key in c then Some(c[key]) else None
  }

  /**
   A read `v = get(key)` that passes the test `if not v`: a missing entry
   and a staged empty string are both refused.
   */
  predicate Holds(c: Entries, key: string): (r: bool)
    ensures r <==> key in c && c[key] != ""
  {
    Truthy(Lookup(c, key))
  }

  /** Distinct captcha ids never share a cache entry. */
  lemma ImageKeyInjective(a: string, b: string)
    ensures ImageKey(a) == ImageKey(b) <==> a == b
  {
    if ImageKey(a) == ImageKey(b) {
      assert a == ImageKey(a)[|ImagePrefix|..];
    }
  }

  /** Distinct mobile numbers never share a cache entry. */
  lemma SmsKeyInjective(a: string, b: string)
    ensures SmsKey(a) == SmsKey(b) <==> a == b
  {
    if SmsKey(a) == SmsKey(b) {
      assert a == SmsKey(a)[|SmsPrefix|..];
    }
  }

  /** The two namespaces are disjoint: staging a captcha never touches an SMS code. */
  lemma NamespacesDisjoint(id: string, mobile: string)
    ensures ImageKey(id) != SmsKey(mobile)
  {
    assert ImageKey(id)[0] == 'I' && SmsKey(mobile)[0] == 'S';
  }

  /** `after` is `before` with key set to value and no other entry changed. */
  predicate StagedOnly(before: Entries, after: Entries, key: string, value: string)
  {
    && after.Keys == before.Keys + {key}
    && after[key] == value
    && forall k :: k in before && k != key ==> after[k] == before[k]
  }

  /** `set(key, value)` on a cache that accepts the write. */
  function Stage(c: Entries, key: string, value: string): (r: Entries)
    ensures StagedOnly(c, r, key, value)
    ensures Holds(r, key) <==> value != ""
  {
    c[key := value]
  }
}
