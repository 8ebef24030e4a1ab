/** Content identifiers. Blocks are stored under the multihash alone; version
    and codec say how a block is named and decoded. */
module Cids {

  type Multihash = string

  datatype Cid = Cid(version: nat, codec: nat, hash: Multihash)

  const RAW: nat := 0x55
  const DAG_PB: nat := 0x70

  /** What a stream of pins delivers: a pin's key, or an error. */
  datatype StreamedPin = Key(c: Cid) | StreamFailed

  /** A version 0 CID renamed to version 1 with the same codec and hash. */
  function ToCidV1(c: Cid): (v: Cid)
    ensures v.version != 0 && v.codec == c.codec && v.hash == c.hash
    ensures c.version != 0 ==> v == c
  {
    if c.version == 0 then Cid(1, c.codec, c.hash) else c
  }

  /** The name under which the blockstore reports a block. */
  function RawCid(h: Multihash): Cid {
    Cid(1, RAW, h)
  }
}
