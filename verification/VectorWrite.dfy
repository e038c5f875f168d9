/** `advance_iovecs` and `write_batch_iovecs` of lib/logger.c. An iovec is what it still offers, so
    advancing its base and shrinking its length drops bytes from its front. */
module VectorWrite {
  import opened Tally

  datatype WriteResult = Wrote(bytes: nat) | Interrupted | HardError

  /** The bytes the iovecs from `offset` on still offer, in order. */
  function Offered(iov: seq<seq<char>>, offset: nat): seq<char>
    decreases |iov| - offset
  {
    if offset >= |iov| then [] else iov[offset] + Offered(iov, offset + 1)
  }

  lemma {:induction false} OfferedFrame(a: seq<seq<char>>, b: seq<seq<char>>, offset: nat)
    requires |a| == |b| && forall i :: offset <= i < |a| ==> a[i] == b[i]
    ensures Offered(a, offset) == Offered(b, offset)
    decreases |a| - offset
  {
    if offset < |a| {
      OfferedFrame(a, b, offset + 1);
    }
  }

  /** Skips `written` bytes of what is offered; never touches an iovec before the offset. */
  method Advance(iov: array<seq<char>>, offset: nat, written: nat) returns (next: nat)
    requires offset <= iov.Length && written <= |Offered(iov[..], offset)|
    modifies iov
    ensures offset <= next <= iov.Length
    ensures Offered(iov[..], next) == Offered(old(iov[..]), offset)[written..]
  {
    next := offset;
    var left := written;
    ghost var all := Offered(iov[..], offset);
    while left > 0 && next < iov.Length
      invariant offset <= next <= iov.Length && 0 <= left <= written
      invariant left <= |Offered(iov[..], next)|
      invariant Offered(iov[..], next)[left..] == all[written..]
      decreases left, iov.Length - next
    {
      ghost var before := iov[..];
      assert Offered(before, next) == iov[next] + Offered(before, next + 1);
      if left >= |iov[next]| {
        assert (iov[next] + Offered(before, next + 1))[left..] == Offered(before, next + 1)[left - |iov[next]|..];
        left := left - |iov[next]|;
        next := next + 1;
      } else {
        assert (iov[next] + Offered(before, next + 1))[left..] == iov[next][left..] + Offered(before, next + 1);
        iov[next] := iov[next][left..];
        OfferedFrame(before, iov[..], next + 1);
        left := 0;
      }
    }
    assert left == 0;
  }

  /** How many results of a script made progress. */
  function Progress(script: seq<WriteResult>): nat {
    if script == [] then 0 else (if script[0].Wrote? && script[0].bytes > 0 then 1 else 0) + Progress(script[1..])
  }

  lemma {:induction false} ProgressSplit(script: seq<WriteResult>, i: nat)
    requires i < |script|
    ensures Progress(script[..i + 1]) == Progress(script[..i]) + if script[i].Wrote? && script[i].bytes > 0 then 1 else 0
  {
    if i == 0 {
      assert script[..1] == [script[0]] && script[..0] == [];
      assert script[..1][1..] == [];
    } else {
      assert script[..i + 1][1..] == script[1..][..i] && script[..i][1..] == script[1..][..i - 1];
      ProgressSplit(script[1..], i - 1);
    }
  }

  /** The write loop against any sequence of `writev` results; a result never exceeds what was offered.
      `sent` is everything the descriptor took; `used` results were consumed.

      Nothing is lost, repeated or reordered; the running total stays in step with the iovecs; the loop
      leaves bytes unwritten only after a hard error or when the results stop arriving; and it consumes at
      most one progressing result per byte, so endless progress is impossible. */
  method WriteBatch(iov: array<seq<char>>, total: nat, script: seq<WriteResult>) returns (sent: seq<char>, offset: nat, used: nat)
    requires total == |Offered(iov[..], 0)|
    modifies iov
    ensures offset <= iov.Length && used <= |script|
    ensures sent + Offered(iov[..], offset) == Offered(old(iov[..]), 0)
    ensures |Offered(iov[..], offset)| == total - |sent|
    ensures |sent| < total ==> used == |script| || (used > 0 && script[used - 1].HardError?)
    ensures Progress(script[..used]) <= total
    ensures forall i :: 0 <= i < used - 1 ==> !script[i].HardError?
  {
    var totalWritten := 0;
    offset, used, sent := 0, 0, [];
    ghost var all := Offered(iov[..], 0);
    while totalWritten < total && offset < iov.Length && used < |script|
      invariant offset <= iov.Length && used <= |script|
      invariant sent + Offered(iov[..], offset) == all
      invariant totalWritten == |sent|
      invariant Progress(script[..used]) <= |sent|
      invariant forall i :: 0 <= i < used ==> !script[i].HardError?
      decreases |script| - used
    {
      var result := script[used];
      ProgressSplit(script, used);
      used := used + 1;
      var rest := Offered(iov[..], offset);
      if result.Wrote? && result.bytes > 0 {
        var n := Min(result.bytes, total - totalWritten);
        sent := sent + rest[..n];
        totalWritten := totalWritten + n;
        offset := Advance(iov, offset, n);
        assert rest == rest[..n] + rest[n..];
      } else if result.HardError? {
        break;
      }
    }
  }
}
