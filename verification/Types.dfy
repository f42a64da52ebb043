/** The values that travel through a BulkIO pipeline. */
module BulkioTypes {
  import opened PrecisionTime

  datatype Option<+T> = None | Some(value: T)

  /** One scalar of payload. A complex sample is two of them. */
  type Sample = int

  /** BULKIO::StreamSRI. `rest` stands for the fields that no modelled code looks into. */
  datatype Sri = Sri(streamID: string, xdelta: real, mode: int, subsize: int, blocking: bool, rest: int)
  {
    predicate Complex() { mode != 0 }

    /** Scalars per sample. */
    function ItemSize(): (n: nat) ensures n == 1 || n == 2 { if mode != 0 then 2 else 1 }
  }

  /** bulkio::sri::create. */
  function DefaultSri(streamID: string): Sri {
    Sri(streamID, 1.0, 0, 0, false, 0)
  }

  /** A packet held by an input port. */
  datatype Packet = Packet(streamID: string, buffer: seq<Sample>, T: Time, EOS: bool, SRI: Sri,
                           sriChanged: bool, inputQueueFlushed: bool)
  {
    /** The packet carries on the segment of the packet before it. */
    predicate Bridges() { !(sriChanged || inputQueueFlushed) }
  }

  function Min(a: nat, b: nat): nat { if a < b then a else b }

  function Max(a: nat, b: nat): nat { if a > b then a else b }

  lemma Regroup<T>(a: seq<T>, b: seq<T>, c: seq<T>)
    ensures a + b + c == a + (b + c)
  {
  }
}
