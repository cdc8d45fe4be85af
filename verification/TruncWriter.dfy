/** The writer that holds back the last four bytes of a stream:
    src/github.com/gorilla/websocket/compression.go, lines 58 to 90. */
module TruncWriter {
  import opened Bytes

  const HELD := 4

  function Min(a: nat, b: nat): nat {
    if a <= b then a else b
  }

  class Writer {
    const p: array<byte>
    var n: nat
    /** What the wrapped writer has taken. */
    var forwarded: seq<byte>
    /** Everything written, as long as the wrapped writer did not fail. */
    ghost var all: seq<byte>
    ghost var failed: bool

    /** Bytes forwarded followed by bytes held are all bytes written, and the
        bytes held are the last four, or fewer if there are no more. */
    ghost predicate Valid()
      reads this, p
    {
      && p.Length == HELD && n <= HELD
      && (!failed ==> forwarded + p[..n] == all && n == Min(HELD, |all|))
    }

    constructor ()
      ensures Valid() && forwarded == [] && all == [] && !failed && fresh(p)
    {
      p := new byte[HELD];
      n, forwarded, all, failed := 0, [], [], false;
    }

    /** The wrapped writer takes all of the bytes, or some and fails. */
    method Forward(bs: seq<byte>) returns (count: nat, ok: bool)
      modifies `forwarded, `failed
      ensures ok ==> count == |bs| && forwarded == old(forwarded) + bs && failed == old(failed)
      ensures !ok ==> count <= |bs| && forwarded == old(forwarded) + bs[..count] && failed
    {
      ok := *;
      var k: int := *;
      count := if !ok && 0 <= k <= |bs| then k else |bs|;
      forwarded := forwarded + bs[..count];
      assert bs[..|bs|] == bs;
      failed := failed || !ok;
    }

    /** The first step of a write: fills the bytes held up to four. */
    method Fill(q: seq<byte>) returns (count: nat)
      requires p.Length == HELD && n <= HELD
      modifies `n, p
      ensures count == Min(HELD - old(n), |q|) && n == old(n) + count
      ensures p[..n] == old(p[..n]) + q[..count]
    {
      count := Min(HELD - n, |q|);
      forall j | 0 <= j < count {
        p[n + j] := q[j];
      }
      n := n + count;
    }

    /** The second step: the bytes held go forward to make room for the last ones of
        the rest, and the others of the rest follow them. */
    method Shift(rest: seq<byte>) returns (count: nat, ok: bool)
      requires p.Length == HELD == n
      modifies `forwarded, `failed, p
      ensures ok ==> forwarded + p[..n] == old(forwarded + p[..n]) + rest && failed == old(failed)
      ensures ok ==> count == |rest| - Min(HELD, |rest|)
      ensures !ok ==> failed
    {
      ghost var start, full := forwarded, p[..];
      var m := Min(|rest|, HELD);
      count, ok := Forward(p[..m]);
      if !ok {
        return;
      }
      var kept := p[m..] + rest[|rest| - m..];
      forall j | 0 <= j < HELD {
        p[j] := kept[j];
      }
      assert p[..] == kept == p[..n];
      assert full == old(p[..n]);
      count, ok := Forward(rest[..|rest| - m]);
      Shifted(start, full, rest, m);
    }

    /** The count returned falls short of the data by the bytes newly held in
        place of bytes let go. */
    method Write(q: seq<byte>) returns (count: nat, ok: bool)
      requires Valid()
      modifies this, p
      ensures Valid() && all == old(all) + q
      ensures ok && !old(failed) ==> !failed
      ensures old(n) < HELD && old(n) + |q| <= HELD ==> ok && failed == old(failed) && forwarded == old(forwarded)
      ensures ok ==> count == |q| - Min(HELD, if |q| > HELD - old(n) then |q| - (HELD - old(n)) else 0)
    {
      ghost var before := forwarded + p[..n];
      all := all + q;
      count := 0;
      var rest := q;
      Appended(forwarded, p[..n], before, q, 0);
      // Only a full buffer forwards anything: even an empty write, which may fail.
      if n < HELD {
        count := Fill(q);
        rest := q[count..];
        Appended(forwarded, p[..n], before, q, count);
        if rest == [] {
          return count, true;
        }
      }
      var nn;
      nn, ok := Shift(rest);
      count := count + nn;
    }
  }

  lemma Appended(forwarded: seq<byte>, held: seq<byte>, before: seq<byte>, q: seq<byte>, count: nat)
    requires count <= |q| && forwarded + held == before + q[..count]
    ensures forwarded + held + q[count..] == before + q
  {
    assert q == q[..count] + q[count..];
  }

  lemma Shifted(start: seq<byte>, full: seq<byte>, rest: seq<byte>, m: nat)
    requires |full| == HELD && m == Min(|rest|, HELD)
    ensures start + full[..m] + rest[..|rest| - m] + (full[m..] + rest[|rest| - m..]) == start + full + rest
  {
    if |rest| < HELD {
      assert rest[..|rest| - m] == [] && rest[|rest| - m..] == rest;
    } else {
      assert full[..m] == full && full[m..] == [];
    }
  }
}
