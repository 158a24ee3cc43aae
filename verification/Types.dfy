/**
 The data the unbonding pipeline works on: keys, signatures, transactions, staking data and
 system parameters.
 */
module Types {
  import opened Bytes
  import Hex
  import Wrappers

  type Hash = s: bytes | |s| == 32 witness seq(32, _ => 0)

  type Signature = s: bytes | |s| == 64 witness seq(64, _ => 0)

  /** A point on the curve: its x coordinate and the parity of its y coordinate. */
  datatype PubKey = PubKey(odd: bool, x: XOnly)

  /** BIP 340 serialisation: the x coordinate alone. */
  function SerializeSchnorr(key: PubKey): XOnly {
    key.x
  }

  function SerializeCompressed(key: PubKey): bytes {
    [if key.odd then 3 else 2] + key.x
  }

  function SchnorrHex(key: PubKey): string {
    Hex.Encode(SerializeSchnorr(key))
  }

  function CompressedHex(key: PubKey): string {
    Hex.Encode(SerializeCompressed(key))
  }

  lemma SchnorrHexInjective(a: PubKey, b: PubKey)
    ensures SchnorrHex(a) == SchnorrHex(b) <==> a.x == b.x
  {
    Hex.EncodeInjective(a.x, b.x);
  }

  lemma CompressedHexInjective(a: PubKey, b: PubKey)
    ensures CompressedHex(a) == CompressedHex(b) <==> a == b
  {
    Hex.EncodeInjective(SerializeCompressed(a), SerializeCompressed(b));
    assert SerializeCompressed(a)[1..] == a.x && SerializeCompressed(b)[1..] == b.x;
    assert SerializeCompressed(a)[0] == SerializeCompressed(b)[0] <==> a.odd == b.odd;
  }

  /** The text forms of a key: the x coordinate alone, and behind a byte for the parity of y. */
  lemma KeyTexts(key: PubKey)
    ensures Hex.Decode(SchnorrHex(key)) == Wrappers.Some(key.x)
    ensures Hex.Decode(CompressedHex(key)) == Wrappers.Some([if key.odd then 3 else 2] + key.x)
    ensures Hex.LowerCase(SchnorrHex(key)) && Hex.LowerCase(CompressedHex(key))
  {
    Hex.EncodeMeaning(key.x, SchnorrHex(key));
    Hex.EncodeMeaning([if key.odd then 3 else 2] + key.x, CompressedHex(key));
  }

  datatype Pair = Pair(key: PubKey, sig: Signature)

  datatype OutPoint = OutPoint(hash: Hash, index: nat)

  datatype TxOut = TxOut(value: int, script: bytes)

  /** A transaction without its witnesses; `rest` stands for version, sequences and lock time. */
  datatype TxBody = TxBody(inputs: seq<OutPoint>, outputs: seq<TxOut>, rest: bytes)

  /** The covenant slots of an unbonding witness, in stack order, and the staker's signature. */
  datatype Witness = NoWitness | Witness(covenant: seq<Wrappers.Option<Signature>>, staker: Signature)

  datatype StakingInfo = StakingInfo(stakerPk: PubKey, finalityProviderPk: PubKey, timelock: nat, amount: int)

  datatype StakingTxData = StakingTxData(tx: TxBody, outputIndex: nat)

  datatype SystemParams = SystemParams(keys: seq<PubKey>, quorum: nat, tag: bytes)

  /** What a signature on an unbonding transaction commits to (never the witness). */
  datatype Message = Message(body: TxBody, output: TxOut, script: bytes)
}
