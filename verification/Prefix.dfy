/** `_prefix_range_end`: the half-open key range that an etcd prefix count covers. */
module Prefix {
  import opened Wrappers

  newtype Byte = x: int | 0 <= x < 256 witness 0

  const MAX_BYTE: Byte := 255

  /** etcd compares keys byte by byte; a proper prefix comes first. */
  predicate Less(a: seq<Byte>, b: seq<Byte>) {
    b != [] && (a == [] || a[0] < b[0] || (a[0] == b[0] && Less(a[1..], b[1..])))
  }

  /** The key lies in `[from, end)`. */
  predicate InRange(key: seq<Byte>, from: seq<Byte>, end: seq<Byte>) {
    !Less(key, from) && Less(key, end)
  }

  predicate AllMax(s: seq<Byte>) {
    forall i | 0 <= i < |s| :: s[i] == MAX_BYTE
  }

  /** The prefix up to and including its last byte below the maximum, with that byte one higher. */
  predicate IsEndOf(prefix: seq<Byte>, end: seq<Byte>) {
    && 0 < |end| <= |prefix|
    && end[..|end| - 1] == prefix[..|end| - 1]
    && prefix[|end| - 1] != MAX_BYTE && end[|end| - 1] == prefix[|end| - 1] + 1
    && AllMax(prefix[|end|..])
  }

  /** `_prefix_range_end`: raises exactly for a prefix that nothing can follow. */
  method PrefixRangeEnd(prefix: seq<Byte>) returns (r: Result<seq<Byte>>)
    ensures r.Ok? <==> !AllMax(prefix)
    ensures r.Ok? ==> IsEndOf(prefix, r.value)
    ensures r.Err? ==> r.error == Configuration
  {
    var raw := new Byte[|prefix|](i requires 0 <= i < |prefix| => prefix[i]);
    var len := |prefix|;
    while len > 0
      invariant 0 <= len <= |prefix| == raw.Length && raw[..] == prefix
      invariant AllMax(prefix[len..])
      modifies raw
    {
      if raw[len - 1] < MAX_BYTE {
        raw[len - 1] := raw[len - 1] + 1;
        assert raw[..len][..len - 1] == prefix[..len - 1];
        return Ok(raw[..len]);
      }
      len := len - 1;
      assert prefix[len..] == [prefix[len]] + prefix[len + 1..];
    }
    assert prefix[0..] == prefix;
    r := Err(Configuration);
  }

  /** Keys of the range are exactly the keys that start with the prefix. */
  lemma {:induction false} RangeIsPrefix(prefix: seq<Byte>, end: seq<Byte>, key: seq<Byte>)
    requires IsEndOf(prefix, end)
    ensures InRange(key, prefix, end) <==> prefix <= key
  {
    if |end| == 1 {
      if key != [] && key[0] == prefix[0] {
        MaxTail(prefix[1..], key[1..]);
        TailPrefix(prefix, key);
      } else if key != [] && key[0] > prefix[0] {
        assert key[0] >= end[0] && !Less(key[1..], end[1..]);
        assert !Less(key, end);
      } else {
        assert Less(key, prefix);
      }
    } else if key != [] && key[0] == prefix[0] {
      assert prefix[1..][|end[1..]|..] == prefix[|end|..];
      assert end[1..][..|end[1..]| - 1] == end[..|end| - 1][1..];
      assert prefix[1..][..|end[1..]| - 1] == prefix[..|end| - 1][1..];
      assert end[0] == end[..|end| - 1][0] && prefix[0] == prefix[..|end| - 1][0];
      RangeIsPrefix(prefix[1..], end[1..], key[1..]);
      TailPrefix(prefix, key);
    } else {
      assert end[0] == end[..|end| - 1][0] && prefix[0] == prefix[..|end| - 1][0];
    }
  }

  /** Nothing but an extension of a run of maximal bytes is at least that run. */
  lemma {:induction false} MaxTail(prefix: seq<Byte>, key: seq<Byte>)
    requires AllMax(prefix)
    ensures !Less(key, prefix) <==> prefix <= key
  {
    if prefix != [] && key != [] && key[0] == prefix[0] {
      MaxTail(prefix[1..], key[1..]);
      TailPrefix(prefix, key);
    }
  }

  lemma TailPrefix(prefix: seq<Byte>, key: seq<Byte>)
    requires prefix != [] && key != [] && key[0] == prefix[0]
    ensures prefix <= key <==> prefix[1..] <= key[1..]
  {
    if prefix[1..] <= key[1..] {
      assert prefix == [prefix[0]] + prefix[1..] && key == [key[0]] + key[1..];
    }
  }
}
