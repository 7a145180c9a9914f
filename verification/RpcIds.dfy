/** RPC identifiers: a hash of the RPC name in the high bits, the provider in the low 16. */
module RpcIds {

  type Id = bv64
  type Provider = bv16

  const MaxProvider: Id := 0xFFFF

  /** demux_id: the provider, and the base with its low bits set. */
  function DemuxProvider(id: Id): Provider {
    (id & 0xFFFF) as Provider
  }

  function DemuxBase(id: Id): Id {
    ((id >> 16) << 16) | MaxProvider
  }

  function Mux(base: Id, provider: Provider): Id {
    ((base >> 16) << 16) | provider as Id
  }

  /** gen_id from Mercury 2.3 on; `hash` is the 32-bit hash of the name. */
  function GenId(hash: bv32, provider: Provider): Id {
    ((hash as Id) << 32) | provider as Id
  }

  /** gen_id before Mercury 2.3: the shift is done on 32 bits. */
  function GenIdOld(hash: bv32, provider: Provider): Id {
    ((hash << 16) | provider as bv32) as Id
  }

  /** Splitting an id and putting it together again gives the id. */
  lemma MuxDemux(id: Id)
    ensures Mux(DemuxBase(id), DemuxProvider(id)) == id
  {
  }

  /** Putting together and splitting gives the provider and the base with its low bits set. */
  lemma DemuxMux(base: Id, provider: Provider)
    ensures DemuxProvider(Mux(base, provider)) == provider
    ensures DemuxBase(Mux(base, provider)) == base | MaxProvider
  {
  }

  /** Exchanging the provider of a generated id gives the id generated for that provider,
      in both layouts. */
  lemma MuxGenId(hash: bv32, p: Provider, q: Provider)
    ensures Mux(GenId(hash, q), p) == GenId(hash, p)
    ensures Mux(GenIdOld(hash, q), p) == GenIdOld(hash, p)
  {
  }

  /** The name's part of an id in either layout. */
  function HashOf(id: Id): bv32 {
    (id >> 32) as bv32
  }

  function HashOfOld(id: Id): bv32 {
    ((id >> 16) & 0xFFFF) as bv32
  }

  /** A generated id gives back its provider and its hash; in the old layout only the low 16
      bits of the hash are left. */
  lemma GenIdParts(hash: bv32, p: Provider)
    ensures DemuxProvider(GenId(hash, p)) == p && HashOf(GenId(hash, p)) == hash
    ensures DemuxProvider(GenIdOld(hash, p)) == p && HashOfOld(GenIdOld(hash, p)) == hash & 0xFFFF
  {
  }
}
