/** A connected file descriptor as the PMI clients use it: reads and writes may be short, may be
    interrupted by a signal, and may fail. */
module FileDescriptor {

  datatype ReadResult = Interrupted | Failed | Got(data: string)
  datatype WriteResult = WriteInterrupted | WriteFailed | Wrote(count: nat)

  class Fd {
    /** Bytes the peer has sent and nobody has read; bytes written to the peer. */
    var incoming: string
    var outgoing: string
    /** How many more signals will interrupt a call. */
    var signals: nat
    /** No call on this descriptor fails; every write takes all it is given. */
    const reliable: bool
    const whole: bool

    constructor (incoming: string, signals: nat, reliable: bool, whole: bool)
      ensures this.incoming == incoming && outgoing == "" && this.signals == signals
      ensures this.reliable == reliable && this.whole == whole
    {
      this.incoming, this.outgoing, this.signals := incoming, "", signals;
      this.reliable, this.whole := reliable, whole;
    }

    /** The peer sends more. */
    method Arrive(data: string)
      modifies this
      ensures incoming == old(incoming) + data && outgoing == old(outgoing) && signals == old(signals)
    {
      incoming := incoming + data;
    }

    /** read(2): between one byte and `want` of them, nothing at end of input. How many is chosen
        arbitrarily, so every split of the stream into short reads is covered. */
    method Read(want: nat) returns (r: ReadResult)
      modifies this
      ensures outgoing == old(outgoing)
      ensures r.Interrupted? ==> incoming == old(incoming) && signals < old(signals)
      ensures r.Failed? ==> incoming == old(incoming) && signals == old(signals) && !reliable
      ensures r.Got? ==> old(incoming) == r.data + incoming && signals == old(signals)
      ensures r.Got? ==> |r.data| <= want && (r.data == "" ==> want == 0 || incoming == "")
    {
      var mood :| 0 <= mood <= 2;
      if mood == 0 && signals > 0 {
        signals := signals - 1;
        return Interrupted;
      }
      if mood == 1 && !reliable {
        return Failed;
      }
      if want == 0 || incoming == "" {
        return Got("");
      }
      var n :| 1 <= n <= want && n <= |incoming|;
      r := Got(incoming[..n]);
      incoming := incoming[n..];
    }

    /** write(2): at least one byte of a non-empty buffer is taken, an arbitrary number. */
    method Write(data: string) returns (r: WriteResult)
      modifies this
      ensures incoming == old(incoming)
      ensures r.WriteInterrupted? ==> outgoing == old(outgoing) && signals < old(signals)
      ensures r.WriteFailed? ==> outgoing == old(outgoing) && signals == old(signals) && !reliable
      ensures r.Wrote? ==> r.count <= |data| && outgoing == old(outgoing) + data[..r.count] && signals == old(signals)
      ensures r.Wrote? && (r.count == 0 || whole) ==> r.count == |data|
    {
      var mood :| 0 <= mood <= 2;
      if mood == 0 && signals > 0 {
        signals := signals - 1;
        return WriteInterrupted;
      }
      if mood == 1 && !reliable {
        return WriteFailed;
      }
      if data == "" {
        return Wrote(0);
      }
      var n :| 1 <= n <= |data| && (whole ==> n == |data|);
      outgoing := outgoing + data[..n];
      r := Wrote(n);
    }
  }
}
