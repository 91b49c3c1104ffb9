/** The serial connection the protocols talk through, as a scripted
    transport. What the device will send is fixed in advance as a list of
    bursts: a burst is a run of bytes followed by a pause long enough for a
    read to time out. A read takes bytes from the current burst and stops
    early, with fewer bytes, when that burst runs out. Every write is logged. */
module SerialPort {
  import opened Bytes
  import opened Errors

  /** Line terminator `read_until()` waits for. */
  const LF := 10

  /** The script whose next burst is `burst`, followed by `script`. */
  function Then(burst: ByteString, script: seq<ByteString>): (r: seq<ByteString>)
    ensures |r| == |script| + 1 && r[0] == burst && r[1..] == script
  {
    [burst] + script
  }

  /** `read(n)`: up to `n` bytes of the current burst, and the script left
      afterwards (the rest of the burst stays for the next read). */
  function ReadOf(script: seq<ByteString>, n: nat): (r: (ByteString, seq<ByteString>))
    ensures |r.0| <= n
    ensures script == [] ==> r == ([], [])
    ensures script != [] ==> |r.0| <= |script[0]| && r.0 == script[0][..|r.0|]
    ensures script != [] && |script[0]| <= n ==> r == (script[0], script[1..])
    ensures script != [] && |script[0]| > n ==> r == (script[0][..n], [script[0][n..]] + script[1..])
  {
    if script == [] then ([], [])
    else if |script[0]| > n then (script[0][..n], [script[0][n..]] + script[1..])
    else (script[0], script[1..])
  }

  /** Length of the first line of a burst, its terminator included; the
      whole burst when it has no terminator. */
  function LineLength(b: seq<int>): (k: nat)
    ensures 0 < k <= |b| || (b == [] && k == 0)
    ensures forall i :: 0 <= i < k - 1 ==> b[i] != LF
    ensures k < |b| ==> b[k - 1] == LF
  {
    if b == [] then 0 else if b[0] == LF then 1 else 1 + LineLength(b[1..])
  }

  /** `read_until()`: the current burst up to and including its first line
      terminator, or the whole burst when the read times out first. */
  function ReadLineOf(script: seq<ByteString>): (r: (ByteString, seq<ByteString>))
  {
    if script == [] then ([], [])
    else ReadOf(script, LineLength(script[0]))
  }

  /** Bytes and pauses still to come; every read that returns something
      makes it smaller. */
  function Pending(script: seq<ByteString>): nat
  {
    if script == [] then 0 else 1 + |script[0]| + Pending(script[1..])
  }

  lemma ReadShrinksPending(script: seq<ByteString>, n: nat)
    ensures script != [] ==> Pending(ReadOf(script, n).1) < Pending(script) || ReadOf(script, n).0 == []
    ensures script == [] ==> ReadOf(script, n) == ([], [])
  {
    if script != [] && |script[0]| > n {
      var rest := [script[0][n..]] + script[1..];
      assert rest[1..] == script[1..];
    }
  }

  /** Logs are extended by appending; the grouping does not matter. */
  lemma AppendAssoc<T>(a: seq<T>, b: seq<T>, c: seq<T>)
    ensures (a + b) + c == a + (b + c)
  {
  }

  class Serial {
    /** Bursts still to come from the device. */
    var script: seq<ByteString>
    /** Every write call's bytes, oldest first. */
    var written: seq<ByteString>
    /** Read timeout in milliseconds; `None` is a blocking port. */
    var timeout: Option<nat>
    var isOpen: bool

    constructor (replies: seq<ByteString>, initialTimeout: Option<nat>)
      ensures script == replies && written == [] && timeout == initialTimeout && isOpen
    {
      script := replies;
      written := [];
      timeout := initialTimeout;
      isOpen := true;
    }

    method Write(data: ByteString)
      modifies this
      ensures written == old(written) + [data]
      ensures script == old(script) && timeout == old(timeout) && isOpen == old(isOpen)
    {
      written := written + [data];
    }

    method Read(n: nat) returns (data: ByteString)
      modifies this
      ensures (data, script) == ReadOf(old(script), n)
      ensures written == old(written) && timeout == old(timeout) && isOpen == old(isOpen)
    {
      var r := ReadOf(script, n);
      data, script := r.0, r.1;
    }

    method ReadUntil() returns (line: ByteString)
      modifies this
      ensures (line, script) == ReadLineOf(old(script))
      ensures written == old(written) && timeout == old(timeout) && isOpen == old(isOpen)
    {
      var r := ReadLineOf(script);
      line, script := r.0, r.1;
    }

    method SetTimeout(t: Option<nat>)
      modifies this
      ensures timeout == t
      ensures script == old(script) && written == old(written) && isOpen == old(isOpen)
    {
      timeout := t;
    }

    method Close()
      modifies this
      ensures !isOpen
      ensures script == old(script) && written == old(written) && timeout == old(timeout)
    {
      isOpen := false;
    }
  }
}
