/**
 * The in-memory tier (lib/fallback-storage.ts): a newest-first list of
 * records capped at `MaxWebhooks`. The module-level `webhookStorage` array
 * is the `buf` argument and result of each function.
 */
module FallbackStorage {
  import opened Wrappers
  import opened Records

  const MaxWebhooks: nat := 100

  /** Records kept by the in-memory tier, newest first. */
  type Buffer = seq<WebhookData>

  /** The length of `Array.prototype.slice(0, end)` on an array of length `len`. */
  function SliceCount(len: nat, end: int): (n: nat)
    ensures n <= len
    ensures end >= 0 ==> n == Min(end, len)
    ensures end < 0 ==> n == Max(len + end, 0)
  {
    if end < 0 then (if len + end > 0 then len + end else 0)
    else if end < len then end else len
  }

  /**
   * `storeFallbackWebhook`: `unshift` the record, then keep only the first
   * `MaxWebhooks` entries.
   */
  function Store(buf: Buffer, d: WebhookData): (r: Buffer)
    ensures 0 < |r| <= MaxWebhooks
    ensures r[0] == d
    ensures r == [d] + buf[..Min(|buf|, MaxWebhooks - 1)]
  {
    var grown := [d] + buf;
    if |grown| > MaxWebhooks then grown[..MaxWebhooks] else grown
  }

  /** `getFallbackWebhooks(limit)`: `slice(0, limit)` of the buffer. */
  function List(buf: Buffer, limit: int): (r: Buffer)
    ensures |r| == SliceCount(|buf|, limit)
    ensures forall i :: 0 <= i < |r| ==> r[i] == buf[i]
  {
    buf[..SliceCount(|buf|, limit)]
  }

  /** `clearFallbackStorage`: the buffer after it is reset. */
  function Clear(): Buffer {
    []
  }

  /** The buffer after storing `ds` in order, starting from `buf`. */
  function StoreAll(buf: Buffer, ds: seq<WebhookData>): Buffer
    decreases |ds|
  {
    if |ds| == 0 then buf else StoreAll(Store(buf, ds[0]), ds[1..])
  }

  function Reverse<T>(s: seq<T>): (r: seq<T>)
    ensures |r| == |s|
    ensures forall i :: 0 <= i < |s| ==> r[i] == s[|s| - 1 - i]
  {
    if |s| == 0 then [] else Reverse(s[1..]) + [s[0]]
  }

  /** The buffer never grows past the cap, whatever is stored into it. */
  lemma {:induction false} StoreAllBounded(buf: Buffer, ds: seq<WebhookData>)
    requires |buf| <= MaxWebhooks
    ensures |StoreAll(buf, ds)| <= MaxWebhooks
    decreases |ds|
  {
    if |ds| > 0 {
      StoreAllBounded(Store(buf, ds[0]), ds[1..]);
    }
  }

  lemma PrefixThroughPrefix<T>(a: seq<T>, x: seq<T>, n: nat, k: nat)
    requires n <= |x| && k <= |a| + n
    ensures (a + x[..n])[..k] == (a + x)[..k]
  {
    forall i | 0 <= i < k
      ensures (a + x[..n])[i] == (a + x)[i]
    {
      if i >= |a| { assert (a + x[..n])[i] == x[..n][i - |a|]; }
    }
  }

  /**
   * Storing `ds` prepends them newest first and drops entries only from the
   * tail: the result is the first `MaxWebhooks` of `reverse(ds) + buf`.
   */
  lemma {:induction false} StoreAllKeepsMostRecent(buf: Buffer, ds: seq<WebhookData>)
    requires |buf| <= MaxWebhooks
    ensures StoreAll(buf, ds) == (Reverse(ds) + buf)[..Min(|ds| + |buf|, MaxWebhooks)]
    decreases |ds|
  {
    if |ds| == 0 {
      assert Reverse(ds) + buf == buf;
    } else {
      var x := [ds[0]] + buf;
      var n := Min(|x|, MaxWebhooks);
      var next := Store(buf, ds[0]);
      StoreAsPrefix(buf, ds[0]);
      var rest := ds[1..];
      var r' := Reverse(rest);
      var k := Min(|rest| + n, MaxWebhooks);
      calc {
        StoreAll(buf, ds);
        StoreAll(next, rest);
        { StoreAllKeepsMostRecent(next, rest); }
        (r' + x[..n])[..k];
        { PrefixThroughPrefix(r', x, n, k); }
        (r' + x)[..k];
        { ReverseCons(ds, buf); }
        (Reverse(ds) + buf)[..k];
      }
    }
  }

  lemma StoreAsPrefix(buf: Buffer, d: WebhookData)
    ensures Store(buf, d) == ([d] + buf)[..Min(|buf| + 1, MaxWebhooks)]
  {
  }

  lemma {:induction false} ReverseCons<T>(s: seq<T>, tail: seq<T>)
    requires |s| > 0
    ensures Reverse(s) + tail == Reverse(s[1..]) + ([s[0]] + tail)
  {
    var r := Reverse(s[1..]);
    assert Reverse(s) == r + [s[0]];
    assert (r + [s[0]]) + tail == r + ([s[0]] + tail);
  }

  /**
   * After 101 stores into an empty buffer it holds exactly the 100 most
   * recent records, newest first: the oldest one is the only one dropped.
   */
  lemma {:induction false} OverflowDropsOldest(ds: seq<WebhookData>)
    requires |ds| == MaxWebhooks + 1
    ensures StoreAll(Clear(), ds) == Reverse(ds[1..])
  {
    StoreAllKeepsMostRecent([], ds);
    var r := Reverse(ds);
    var kept := Reverse(ds[1..]);
    assert r + [] == r;
    forall i | 0 <= i < MaxWebhooks
      ensures r[..MaxWebhooks][i] == kept[i]
    {
      assert kept[i] == ds[1..][MaxWebhooks - 1 - i];
    }
    assert r[..MaxWebhooks] == kept;
  }

  /**
   * There is no de-duplication: below the cap, storing a record that is
   * already present adds a second copy and keeps every older entry.
   */
  lemma StoreKeepsDuplicates(buf: Buffer, d: WebhookData)
    requires |buf| < MaxWebhooks
    ensures Store(buf, d)[1..] == buf
    ensures multiset(Store(buf, d))[d] == multiset(buf)[d] + 1
  {
    assert Store(buf, d) == [d] + buf;
  }

  /** A cleared buffer lists nothing, and the next store makes it a singleton. */
  lemma ClearEmpties(limit: int, d: WebhookData)
    ensures List(Clear(), limit) == []
    ensures Store(Clear(), d) == [d]
  {
  }

  /**
   * A negative limit counts from the end, as `slice` does: a limit of `-k`
   * drops the last `k` records, and lists nothing once `k` reaches the length.
   */
  lemma ListNegative(buf: Buffer, k: nat)
    requires k > 0
    ensures k <= |buf| ==> List(buf, -(k as int)) == buf[..|buf| - k]
    ensures k >= |buf| ==> List(buf, -(k as int)) == []
  {
  }

  /** With a non-negative limit, listing returns the first `min(limit, length)` records. */
  lemma ListPrefix(buf: Buffer, limit: int)
    requires limit >= 0
    ensures List(buf, limit) == buf[..Min(limit, |buf|)]
  {
  }
}
