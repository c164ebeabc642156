/** The sink for bodies of a declared length: it counts what it writes and refuses what does not fit. */
module ContentLength {
  import opened Prelude
  import opened Digits

  /** size_t addition */
  function AddSize(a: nat, b: nat): nat {
    (a + b) % TWO_64
  }

  lemma NoWrapAround(a: nat, b: nat)
    requires a + b < TWO_64
    ensures AddSize(a, b) == a + b
  {
  }

  lemma WrapAround(a: nat, b: nat)
    requires a < TWO_64 && b < TWO_64 <= a + b
    ensures AddSize(a, b) == a + b - TWO_64
  {
  }

  class ContentLengthSink {
    const limit: nat
    var out: string
    var bytesWritten: nat

    ghost predicate Valid()
      reads this
    {
      bytesWritten <= limit < TWO_64
    }

    constructor (limit: nat)
      requires limit < TWO_64
      ensures Valid()
      ensures this.limit == limit && out == "" && bytesWritten == 0
    {
      this.limit, out, bytesWritten := limit, "", 0;
    }

    /** False is the overflow exception, which writes nothing. */
    method Put(buf: string) returns (ok: bool)
      requires Valid() && |buf| < TWO_64
      modifies this
      ensures Valid()
      ensures ok == Accepts(limit, old(bytesWritten), buf)
      ensures out == if ok then old(out) + buf else old(out)
      ensures bytesWritten == if ok then AddSize(old(bytesWritten), |buf|) else old(bytesWritten)
      ensures Body(out, bytesWritten) == Next(limit, Body(old(out), old(bytesWritten)), buf)
    {
      var size := |buf|;
      if size == 0 {
        assert out == out + buf;
        return true;
      }
      if AddSize(bytesWritten, size) > limit {
        return false;
      }
      out := out + buf;
      bytesWritten := AddSize(bytesWritten, size);
      return true;
    }
  }

  predicate Accepts(limit: nat, written: nat, buf: string) {
    buf == "" || AddSize(written, |buf|) <= limit
  }

  datatype Body = Body(out: string, written: nat)

  function Next(limit: nat, b: Body, buf: string): Body {
    if buf != "" && Accepts(limit, b.written, buf) then Body(b.out + buf, AddSize(b.written, |buf|)) else b
  }

  /** The sink after the first k buffers of a body. */
  function After(limit: nat, bufs: seq<string>, k: nat): Body
    requires k <= |bufs|
  {
    if k == 0 then Body("", 0) else Next(limit, After(limit, bufs, k - 1), bufs[k - 1])
  }

  /** No addition wraps around. */
  ghost predicate NoWrap(limit: nat, bufs: seq<string>) {
    forall k: nat | k < |bufs| :: After(limit, bufs, k).written + |bufs[k]| < TWO_64
  }

  /** The count is the bytes written, and they keep to the declared length. */
  predicate Counted(limit: nat, b: Body) {
    b.written == |b.out| <= limit
  }

  ghost predicate AlwaysCounted(limit: nat, bufs: seq<string>) {
    forall k: nat | k <= |bufs| :: Counted(limit, After(limit, bufs, k))
  }

  lemma NextCounted(limit: nat, b: Body, buf: string)
    requires Counted(limit, b) && b.written + |buf| < TWO_64
    ensures Counted(limit, Next(limit, b, buf))
  {
    NoWrapAround(b.written, |buf|);
  }

  /** A sum that wraps is always accepted, and then the count is wrong. */
  lemma NextMiscounts(limit: nat, b: Body, buf: string)
    requires limit < TWO_64 && |buf| < TWO_64 && Counted(limit, b) && b.written + |buf| >= TWO_64
    ensures !Counted(limit, Next(limit, b, buf))
  {
    WrapAround(b.written, |buf|);
  }

  /** While no sum reaches 2^64, the count is the bytes written and they never exceed the declared length. */
  lemma {:induction false} NeverExceedsLimit(limit: nat, bufs: seq<string>, k: nat)
    requires k <= |bufs| && NoWrap(limit, bufs)
    ensures Counted(limit, After(limit, bufs, k))
  {
    if k > 0 {
      NeverExceedsLimit(limit, bufs, k - 1);
      NextCounted(limit, After(limit, bufs, k - 1), bufs[k - 1]);
    }
  }

  /**
   Over whole bodies: after every buffer the count is the bytes written, within the declared length, if
   and only if no size_t sum on the way wraps around.
   */
  lemma {:induction false} CountedIff(limit: nat, bufs: seq<string>)
    requires limit < TWO_64 && forall k: nat | k < |bufs| :: |bufs[k]| < TWO_64
    ensures AlwaysCounted(limit, bufs) <==> NoWrap(limit, bufs)
  {
    if NoWrap(limit, bufs) {
      forall k: nat | k <= |bufs| ensures Counted(limit, After(limit, bufs, k)) {
        NeverExceedsLimit(limit, bufs, k);
      }
    }
    if AlwaysCounted(limit, bufs) {
      forall k: nat | k < |bufs| ensures After(limit, bufs, k).written + |bufs[k]| < TWO_64 {
        var b := After(limit, bufs, k);
        assert Counted(limit, After(limit, bufs, k + 1));
        if b.written + |bufs[k]| >= TWO_64 {
          NextMiscounts(limit, b, bufs[k]);
        }
      }
    }
  }

  /**
   One put keeps within the limit, and is refused exactly when it does not fit, if and only if the sum
   of the two sizes does not wrap: a sum that wraps is always accepted.
   */
  lemma RefusesExactlyIff(limit: nat, written: nat, buf: string)
    requires written <= limit < TWO_64 && 0 < |buf| < TWO_64
    ensures (Accepts(limit, written, buf) <==> written + |buf| <= limit) <==> written + |buf| < TWO_64
  {
    if written + |buf| < TWO_64 {
      NoWrapAround(written, |buf|);
    } else {
      WrapAround(written, |buf|);
    }
  }

  /** A body that fits is written completely. */
  lemma {:induction false} FittingBodyIsWritten(limit: nat, bufs: seq<string>, k: nat)
    requires k <= |bufs| && limit < TWO_64 && |Concat(bufs[..k])| <= limit
    ensures After(limit, bufs, k) == Body(Concat(bufs[..k]), |Concat(bufs[..k])|)
  {
    if k > 0 {
      assert bufs[..k] == bufs[..k - 1] + [bufs[k - 1]];
      ConcatAppend(bufs[..k - 1], bufs[k - 1]);
      FittingBodyIsWritten(limit, bufs, k - 1);
      NoWrapAround(|Concat(bufs[..k - 1])|, |bufs[k - 1]|);
      assert Concat(bufs[..k - 1]) + "" == Concat(bufs[..k - 1]);
    } else {
      assert bufs[..0] == [];
    }
  }
}
