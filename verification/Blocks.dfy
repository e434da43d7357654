/** Blocks and block ids. An id carries its block number; the hash part is modelled as collision free: the id of a
    block determines the block. `Raw` ids are ids nobody has a block for (the all-zero id is one of them). */
module Blocks {

  datatype BlockId = Raw(number: nat, tag: nat) | HashOf(previous: BlockId, payload: nat)

  const ZERO_ID := Raw(0, 0)

  /** block_header::num_from_id */
  function NumFromId(id: BlockId): nat {
    match id
    case Raw(n, _) => n
    case HashOf(p, _) => NumFromId(p) + 1
  }

  datatype Block = Block(previous: BlockId, payload: nat) {

    function Id(): BlockId { HashOf(previous, payload) }

    function Num(): nat { NumFromId(previous) + 1 }
  }

  lemma IdDeterminesBlock(a: Block, b: Block)
    requires a.Id() == b.Id()
    ensures a == b
    ensures NumFromId(a.Id()) == a.Num()
  {
  }
}
