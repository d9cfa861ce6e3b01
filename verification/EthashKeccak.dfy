/** The hash functions that Ethash uses, from the streaming hash of keccak.c. */
module EthashKeccak {
  import opened EthashWords
  import Fips202
  import KeccakSponge

  /** ethash_keccak256 */
  method HashTo256(data: seq<KeccakSponge.Octet>) returns (h: Hash256)
    ensures h == Keccak256(KeccakSponge.MessageBits(data))
  {
    hide Fips202.Keccak;
    var out := KeccakSponge.Keccak(256, data);
    h := Fips202.Flatten(out);
  }

  /** ethash_keccak512 */
  method HashTo512(data: seq<KeccakSponge.Octet>) returns (h: Hash512)
    ensures h == Keccak512(KeccakSponge.MessageBits(data))
  {
    hide Fips202.Keccak;
    var out := KeccakSponge.Keccak(512, data);
    h := Fips202.Flatten(out);
  }
}
