/**
 The document codec of the persistent store (internal/services/persistent_store.go): how a transaction
 is written to a document of hexadecimal strings and unsigned numbers, and how it is read back.
 */
module PersistentStore {
  import opened Bytes
  import opened Integers
  import opened Types
  import opened Wrappers
  import Hex

  /** A transaction with its witness, as it is serialised. */
  datatype Tx = Tx(body: TxBody, wit: Witness)

  /** The library calls the codec relies on. */
  datatype Library = Library(
    serialize: Tx -> Option<bytes>,
    deserialize: bytes -> Option<Tx>,
    txid: TxBody -> Hash,
    onCurve: XOnly -> bool,
    validSig: Signature -> bool)

  datatype Info = Info(stakerPk: PubKey, finalityProviderPk: PubKey, timelock: uint16, amount: int64)

  datatype Document = Document(
    id: nat,
    stakerPkHex: string,
    finalityPkHex: string,
    unbondingTxSigHex: string,
    unbondingTxHashHex: string,
    unbondingTxHex: string,
    stakingTxHex: string,
    stakingTxHashHex: string,
    stakingOutputIndex: uint64,
    stakingTimelock: uint64,
    stakingAmount: uint64)

  datatype Data = Data(id: nat, tx: Tx, hash: Hash, sig: Signature, info: Info, stakingTx: Tx, stakingOutputIndex: uint64)

  datatype DecodeError = BadTx | BadHash | BadSignature | BadPubKey | BadStakingTx

  // ---------- hashes, keys, signatures, transactions ----------

  function Backwards(b: bytes): (r: bytes)
    ensures |r| == |b| && forall i :: 0 <= i < |b| ==> r[i] == b[|b| - 1 - i]
  {
    seq(|b|, i requires 0 <= i < |b| => b[|b| - 1 - i])
  }

  /** A transaction hash is printed with its bytes reversed. */
  function HashToString(h: Hash): string {
    Hex.Encode(Backwards(h))
  }

  function Zeros(n: nat): (z: bytes)
    ensures |z| == n && forall i :: 0 <= i < n ==> z[i] == 0
  {
    seq(n, _ => 0)
  }

  /** Shorter strings are padded in front; longer ones are an error. */
  function HashFromString(s: string): Option<Hash> {
    if |s| > 64 then None
    else
      var decoded := Hex.Decode(if |s| % 2 == 0 then s else "0" + s);
      if decoded.None? || |decoded.value| > 32 then None
      else Some(Backwards(Zeros(32 - |decoded.value|) + decoded.value))
  }

  lemma HashRoundTrip(h: Hash)
    ensures HashFromString(HashToString(h)) == Some(h)
  {
    Hex.DecodeEncode(Backwards(h));
    var b := Backwards(h);
    assert Zeros(32 - |b|) + b == b;
    assert Backwards(b) == h;
  }

  /** The printed form: lower case, two digits for each byte, the last byte of the hash first. */
  lemma HashText(h: Hash)
    ensures Hex.LowerCase(HashToString(h)) && |HashToString(h)| == 64
    ensures var b := Hex.Decode(HashToString(h));
      b.Some? && |b.value| == 32 && forall i :: 0 <= i < 32 ==> b.value[i] == h[31 - i]
  {
    Hex.EncodeMeaning(Backwards(h), HashToString(h));
  }

  /** A text padded in front with zero digits to `n` of them. */
  function Padded(s: string, n: nat): (p: string)
    requires |s| <= n
    ensures |p| == n && p[n - |s|..] == s
  {
    seq(n - |s|, _ => '0') + s
  }

  /** `d` with that many zero bytes in front. */
  function AfterZeros(zeros: nat, d: Option<bytes>): Option<bytes> {
    match d
    case None => None
    case Some(b) => Some(Zeros(zeros) + b)
  }

  /** Padding with two zero digits for each of `zeros` bytes puts that many zero bytes in front. */
  lemma PaddedAt(s: string, d: bytes, zeros: nat, k: nat)
    requires |s| == 2 * |d| && k < zeros + |d|
    ensures var p := Padded(s, |s| + 2 * zeros);
      Hex.ByteAt(p, Zeros(zeros) + d, k) <==> k < zeros || Hex.ByteAt(s, d, k - zeros)
  {
    var p := Padded(s, |s| + 2 * zeros);
    if k < zeros {
      assert p[2 * k] == '0' && p[2 * k + 1] == '0';
    } else {
      assert p[2 * k] == s[2 * (k - zeros)] && p[2 * k + 1] == s[2 * (k - zeros) + 1];
    }
  }

  lemma PaddedReads(s: string, d: bytes, zeros: nat)
    requires |s| == 2 * |d|
    ensures Hex.Decode(Padded(s, |s| + 2 * zeros)) == Some(Zeros(zeros) + d) <==> Hex.Decode(s) == Some(d)
  {
    var p, b := Padded(s, |s| + 2 * zeros), Zeros(zeros) + d;
    Hex.DecodeMeaning(s, d);
    Hex.DecodeMeaning(p, b);
    forall k | 0 <= k < |b|
      ensures Hex.ByteAt(p, b, k) <==> k < zeros || Hex.ByteAt(s, d, k - zeros)
    {
      PaddedAt(s, d, zeros, k);
    }
    if forall k :: 0 <= k < |b| ==> Hex.ByteAt(p, b, k) {
      forall k | 0 <= k < |d|
        ensures Hex.ByteAt(s, d, k)
      {
        assert Hex.ByteAt(p, b, k + zeros);
      }
    }
  }

  lemma ZerosInFront(s: string, b: bytes, zeros: nat)
    requires |s| % 2 == 0 && Hex.Decode(Padded(s, |s| + 2 * zeros)) == Some(b)
    ensures zeros <= |b| && 2 * |b[zeros..]| == |s| && b == Zeros(zeros) + b[zeros..]
  {
    var p := Padded(s, |s| + 2 * zeros);
    Hex.DecodeMeaning(p, b);
    forall k | 0 <= k < zeros
      ensures b[k] == 0
    {
      assert Hex.ByteAt(p, b, k);
      assert p[2 * k] == '0' && p[2 * k + 1] == '0';
    }
  }

  lemma PaddedDecode(s: string, zeros: nat)
    requires |s| % 2 == 0
    ensures Hex.Decode(Padded(s, |s| + 2 * zeros)) == AfterZeros(zeros, Hex.Decode(s))
  {
    var padded := Hex.Decode(Padded(s, |s| + 2 * zeros));
    if Hex.Decode(s).Some? {
      PaddedReads(s, Hex.Decode(s).value, zeros);
    } else if padded.Some? {
      ZerosInFront(s, padded.value, zeros);
      PaddedReads(s, padded.value[zeros..], zeros);
    }
  }

  lemma HashFromPadded(s: string)
    requires |s| <= 64
    ensures var b := Hex.Decode(Padded(s, 64));
      && (b.Some? ==> |b.value| == 32)
      && HashFromString(s) == if b.None? then None else Some(Backwards(b.value))
  {
    var even := if |s| % 2 == 0 then s else "0" + s;
    var zeros := (64 - |even|) / 2;
    assert |even| + 2 * zeros == 64;
    assert Padded(s, 64) == Padded(even, 64);
    PaddedDecode(even, zeros);
    HashFromDecoded(s, even, Hex.Decode(even), zeros);
  }

  lemma HashFromDecoded(s: string, even: string, d: Option<bytes>, zeros: nat)
    requires |s| <= 64 && even == if |s| % 2 == 0 then s else "0" + s
    requires d == Hex.Decode(even) && |even| + 2 * zeros == 64
    ensures var b := AfterZeros(zeros, d);
      && (b.Some? ==> |b.value| == 32)
      && HashFromString(s) == if b.None? then None else Some(Backwards(b.value))
  {
  }

  lemma BackwardsIff(b: bytes, h: Hash)
    requires |b| == 32
    ensures Backwards(b) == h <==> forall i :: 0 <= i < 32 ==> b[i] == h[31 - i]
  {
    if forall i :: 0 <= i < 32 ==> b[i] == h[31 - i] {
      assert forall i :: 0 <= i < 32 ==> Backwards(b)[i] == b[31 - i];
    } else {
      assert forall i :: 0 <= i < 32 ==> b[i] == Backwards(b)[31 - i];
    }
  }

  /** Which texts are read as a hash and as which: padded to 64 digits, the last byte first. */
  lemma HashFromStringMeaning(s: string, h: Hash)
    ensures HashFromString(s) == Some(h)
            <==> && |s| <= 64
                 && var b := Hex.Decode(Padded(s, 64));
                 && b.Some? && |b.value| == 32 && forall i :: 0 <= i < 32 ==> b.value[i] == h[31 - i]
  {
    if |s| <= 64 {
      HashFromPadded(s);
      var b := Hex.Decode(Padded(s, 64));
      if b.Some? {
        BackwardsIff(b.value, h);
      }
    }
  }

  /** BIP 340 parsing: 32 bytes that are an x coordinate, lifted to the point with even y. */
  function PubKeyFromHex(lib: Library, s: string): Option<PubKey> {
    match Hex.Decode(s)
    case None => None
    case Some(b) => if |b| == 32 && lib.onCurve(b) then Some(PubKey(false, b)) else None
  }

  function SigFromHex(lib: Library, s: string): Option<Signature> {
    match Hex.Decode(s)
    case None => None
    case Some(b) => if |b| == 64 && lib.validSig(b) then Some(b) else None
  }

  function TxFromHex(lib: Library, s: string): Option<Tx> {
    match Hex.Decode(s)
    case None => None
    case Some(b) => lib.deserialize(b)
  }

  function TxToHex(lib: Library, tx: Tx): Option<string> {
    match lib.serialize(tx)
    case None => None
    case Some(b) => Some(Hex.Encode(b))
  }

  // ---------- integer conversions ----------

  function Int64ToUint64(x: int64): uint64 {
    if x < 0 then x + TWO_TO_64 else x
  }

  function Uint64ToInt64(x: uint64): int64 {
    if x >= TWO_TO_63 then x - TWO_TO_64 else x
  }

  function Uint64ToUint16(x: uint64): uint16 {
    x % TWO_TO_16
  }

  // ---------- documents ----------

  /** The document written for a transaction; `id` is assigned by the database. */
  function Encode(lib: Library, id: nat, tx: Tx, sig: Signature, info: Info, stakingTx: Tx, outputIndex: uint64): Option<Document> {
    var txHex := TxToHex(lib, tx);
    var stakingHex := TxToHex(lib, stakingTx);
    if txHex.None? || stakingHex.None? then None
    else Some(Document(
      id, SchnorrHex(info.stakerPk), SchnorrHex(info.finalityProviderPk), Hex.Encode(sig),
      HashToString(lib.txid(tx.body)), txHex.value, stakingHex.value, HashToString(lib.txid(stakingTx.body)),
      outputIndex, info.timelock, Int64ToUint64(info.amount)))
  }

  function DocumentToData(lib: Library, d: Document): Result<Data, DecodeError> {
    var tx := TxFromHex(lib, d.unbondingTxHex);
    if tx.None? then Err(BadTx) else
    var hash := HashFromString(d.unbondingTxHashHex);
    if hash.None? then Err(BadHash) else
    var sig := SigFromHex(lib, d.unbondingTxSigHex);
    if sig.None? then Err(BadSignature) else
    var stakerPk := PubKeyFromHex(lib, d.stakerPkHex);
    if stakerPk.None? then Err(BadPubKey) else
    var fpPk := PubKeyFromHex(lib, d.finalityPkHex);
    if fpPk.None? then Err(BadPubKey) else
    var info := Info(stakerPk.value, fpPk.value, Uint64ToUint16(d.stakingTimelock), Uint64ToInt64(d.stakingAmount));
    var stakingTx := TxFromHex(lib, d.stakingTxHex);
    if stakingTx.None? then Err(BadStakingTx)
    else Ok(Data(d.id, tx.value, hash.value, sig.value, info, stakingTx.value, d.stakingOutputIndex))
  }

  /** The one lower-case hexadecimal text of these bytes. */
  predicate TextOf(s: string, b: bytes) {
    Hex.LowerCase(s) && Hex.Decode(s) == Some(b)
  }

  /** The one lower-case text of full length that is read as this hash. */
  predicate HashTextOf(s: string, h: Hash) {
    Hex.LowerCase(s) && |s| == 64 && HashFromString(s) == Some(h)
  }

  lemma BytesWritten(b: bytes)
    ensures TextOf(Hex.Encode(b), b)
  {
    Hex.EncodeMeaning(b, Hex.Encode(b));
  }

  lemma HashWritten(h: Hash)
    ensures HashTextOf(HashToString(h), h)
  {
    HashRoundTrip(h);
    HashText(h);
  }

  lemma CastIsCongruent(amount: int64)
    ensures (Int64ToUint64(amount) - amount) % TWO_TO_64 == 0
  {
  }

  /** What each field is read as. */
  predicate Holds(lib: Library, d: Document, id: nat, tx: Tx, sig: Signature, info: Info, stakingTx: Tx, outputIndex: uint64)
    requires lib.serialize(tx).Some? && lib.serialize(stakingTx).Some?
  {
    && d.id == id
    && HashTextOf(d.unbondingTxHashHex, lib.txid(tx.body))
    && HashTextOf(d.stakingTxHashHex, lib.txid(stakingTx.body))
    && TextOf(d.unbondingTxHex, lib.serialize(tx).value)
    && TextOf(d.stakingTxHex, lib.serialize(stakingTx).value)
    && TextOf(d.unbondingTxSigHex, sig)
    && TextOf(d.stakerPkHex, info.stakerPk.x)
    && TextOf(d.finalityPkHex, info.finalityProviderPk.x)
    && d.stakingOutputIndex == outputIndex
    && d.stakingTimelock == info.timelock
    && (d.stakingAmount - info.amount) % TWO_TO_64 == 0
  }

  /**
   What is written, field by field, each as what it is read as. Nothing is written exactly when one of
   the two transactions cannot be serialised.
   */
  lemma DocumentFields(lib: Library, id: nat, tx: Tx, sig: Signature, info: Info, stakingTx: Tx, outputIndex: uint64)
    ensures var r := Encode(lib, id, tx, sig, info, stakingTx, outputIndex);
      && (r.Some? <==> lib.serialize(tx).Some? && lib.serialize(stakingTx).Some?)
      && (r.Some? ==> Holds(lib, r.value, id, tx, sig, info, stakingTx, outputIndex))
  {
    if lib.serialize(tx).Some? && lib.serialize(stakingTx).Some? {
      var d := Encode(lib, id, tx, sig, info, stakingTx, outputIndex).value;
      assert HashTextOf(d.unbondingTxHashHex, lib.txid(tx.body)) by { HashWritten(lib.txid(tx.body)); }
      assert HashTextOf(d.stakingTxHashHex, lib.txid(stakingTx.body)) by { HashWritten(lib.txid(stakingTx.body)); }
      assert TextOf(d.unbondingTxHex, lib.serialize(tx).value) by { BytesWritten(lib.serialize(tx).value); }
      assert TextOf(d.stakingTxHex, lib.serialize(stakingTx).value) by { BytesWritten(lib.serialize(stakingTx).value); }
      assert TextOf(d.unbondingTxSigHex, sig) by { BytesWritten(sig); }
      assert TextOf(d.stakerPkHex, info.stakerPk.x) by { BytesWritten(info.stakerPk.x); }
      assert TextOf(d.finalityPkHex, info.finalityProviderPk.x) by { BytesWritten(info.finalityProviderPk.x); }
      CastIsCongruent(info.amount);
    }
  }

  /** The text is read as these bytes, and the library reads those as this transaction. */
  predicate ReadsAsTx(lib: Library, s: string, tx: Tx) {
    Hex.Decode(s).Some? && lib.deserialize(Hex.Decode(s).value) == Some(tx)
  }

  predicate ReadsAsSig(lib: Library, s: string, sig: Signature) {
    Hex.Decode(s) == Some(sig) && lib.validSig(sig)
  }

  /** BIP 340 keys have even y. */
  predicate ReadsAsKey(lib: Library, s: string, key: PubKey) {
    Hex.Decode(s) == Some(key.x) && lib.onCurve(key.x) && !key.odd
  }

  /** Exactly when a document is read as this data, whoever wrote it. */
  lemma ReadMeaning(lib: Library, d: Document, data: Data)
    ensures DocumentToData(lib, d) == Ok(data)
            <==> && data.id == d.id && data.stakingOutputIndex == d.stakingOutputIndex
                 && ReadsAsTx(lib, d.unbondingTxHex, data.tx) && ReadsAsTx(lib, d.stakingTxHex, data.stakingTx)
                 && HashFromString(d.unbondingTxHashHex) == Some(data.hash)
                 && ReadsAsSig(lib, d.unbondingTxSigHex, data.sig)
                 && ReadsAsKey(lib, d.stakerPkHex, data.info.stakerPk)
                 && ReadsAsKey(lib, d.finalityPkHex, data.info.finalityProviderPk)
                 && data.info.timelock == d.stakingTimelock % 65536
                 && (data.info.amount - d.stakingAmount) % TWO_TO_64 == 0
  {
    SignedUnique(d.stakingAmount, data.info.amount);
  }

  lemma SignedUnique(x: uint64, y: int64)
    ensures y == Uint64ToInt64(x) <==> (y - x) % TWO_TO_64 == 0
  {
  }

  /** The first field that cannot be read, in the order of reading, decides the error. */
  lemma ReadErrors(lib: Library, d: Document)
    ensures var r := DocumentToData(lib, d);
      var tx := exists t :: ReadsAsTx(lib, d.unbondingTxHex, t);
      var hash := HashFromString(d.unbondingTxHashHex).Some?;
      var sig := exists s :: ReadsAsSig(lib, d.unbondingTxSigHex, s);
      var keys := (exists k :: ReadsAsKey(lib, d.stakerPkHex, k)) && (exists k :: ReadsAsKey(lib, d.finalityPkHex, k));
      var staking := exists t :: ReadsAsTx(lib, d.stakingTxHex, t);
      && (r == Err(BadTx) <==> !tx)
      && (r == Err(BadHash) <==> tx && !hash)
      && (r == Err(BadSignature) <==> tx && hash && !sig)
      && (r == Err(BadPubKey) <==> tx && hash && sig && !keys)
      && (r == Err(BadStakingTx) <==> tx && hash && sig && keys && !staking)
  {
    TxReadable(lib, d.unbondingTxHex);
    TxReadable(lib, d.stakingTxHex);
    SigReadable(lib, d.unbondingTxSigHex);
    KeyReadable(lib, d.stakerPkHex);
    KeyReadable(lib, d.finalityPkHex);
  }

  lemma TxReadable(lib: Library, s: string)
    ensures TxFromHex(lib, s).Some? <==> exists t :: ReadsAsTx(lib, s, t)
  {
    if TxFromHex(lib, s).Some? {
      assert ReadsAsTx(lib, s, TxFromHex(lib, s).value);
    }
  }

  lemma SigReadable(lib: Library, s: string)
    ensures SigFromHex(lib, s).Some? <==> exists sig :: ReadsAsSig(lib, s, sig)
  {
    if SigFromHex(lib, s).Some? {
      assert ReadsAsSig(lib, s, SigFromHex(lib, s).value);
    }
  }

  lemma KeyReadable(lib: Library, s: string)
    ensures PubKeyFromHex(lib, s).Some? <==> exists k :: ReadsAsKey(lib, s, k)
  {
    if PubKeyFromHex(lib, s).Some? {
      assert ReadsAsKey(lib, s, PubKeyFromHex(lib, s).value);
    }
  }

  /** What the library promises for the transaction: reading what was written gives it back. */
  predicate Faithful(lib: Library, tx: Tx) {
    lib.serialize(tx).Some? ==> lib.deserialize(lib.serialize(tx).value) == Some(tx)
  }

  /** The key with the same x coordinate and even y. */
  function EvenY(key: PubKey): PubKey {
    PubKey(false, key.x)
  }

  function EvenKeys(info: Info): Info {
    info.(stakerPk := EvenY(info.stakerPk), finalityProviderPk := EvenY(info.finalityProviderPk))
  }

  lemma TxRoundTrip(lib: Library, tx: Tx)
    requires Faithful(lib, tx) && TxToHex(lib, tx).Some?
    ensures TxFromHex(lib, TxToHex(lib, tx).value) == Some(tx)
  {
    Hex.DecodeEncode(lib.serialize(tx).value);
  }

  lemma PubKeyRoundTrip(lib: Library, key: PubKey)
    requires lib.onCurve(key.x)
    ensures PubKeyFromHex(lib, SchnorrHex(key)) == Some(EvenY(key))
  {
    Hex.DecodeEncode(key.x);
  }

  lemma SigRoundTrip(lib: Library, sig: Signature)
    requires lib.validSig(sig)
    ensures SigFromHex(lib, Hex.Encode(sig)) == Some(sig)
  {
    Hex.DecodeEncode(sig);
  }

  /** The casts to unsigned 64-bit numbers and back lose nothing, negative amounts included. */
  lemma CastRoundTrip(timelock: uint16, amount: int64)
    ensures Uint64ToUint16(timelock) == timelock && Uint64ToInt64(Int64ToUint64(amount)) == amount
  {
  }

  /**
   Reading the document written for a transaction gives back the transaction, its txid as the hash, the
   signature and the staking data; the keys come back with even y and everything else unchanged.
   */
  lemma RoundTrip(lib: Library, id: nat, tx: Tx, sig: Signature, info: Info, stakingTx: Tx, outputIndex: uint64)
    requires Faithful(lib, tx) && Faithful(lib, stakingTx)
    requires lib.onCurve(info.stakerPk.x) && lib.onCurve(info.finalityProviderPk.x) && lib.validSig(sig)
    ensures var d := Encode(lib, id, tx, sig, info, stakingTx, outputIndex);
      d.Some? ==> DocumentToData(lib, d.value)
                  == Ok(Data(id, tx, lib.txid(tx.body), sig, EvenKeys(info), stakingTx, outputIndex))
  {
    var d := Encode(lib, id, tx, sig, info, stakingTx, outputIndex);
    if d.Some? {
      TxRoundTrip(lib, tx);
      TxRoundTrip(lib, stakingTx);
      HashRoundTrip(lib.txid(tx.body));
      SigRoundTrip(lib, sig);
      PubKeyRoundTrip(lib, info.stakerPk);
      PubKeyRoundTrip(lib, info.finalityProviderPk);
      CastRoundTrip(info.timelock, info.amount);
    }
  }

  /** Writing what was read from such a document gives the same document again. */
  lemma ReEncode(lib: Library, id: nat, tx: Tx, sig: Signature, info: Info, stakingTx: Tx, outputIndex: uint64)
    requires Faithful(lib, tx) && Faithful(lib, stakingTx)
    requires lib.onCurve(info.stakerPk.x) && lib.onCurve(info.finalityProviderPk.x) && lib.validSig(sig)
    requires Encode(lib, id, tx, sig, info, stakingTx, outputIndex).Some?
    ensures var d := Encode(lib, id, tx, sig, info, stakingTx, outputIndex).value;
      var r := DocumentToData(lib, d);
      r.Ok? && Encode(lib, r.value.id, r.value.tx, r.value.sig, r.value.info, r.value.stakingTx, r.value.stakingOutputIndex) == Some(d)
  {
    RoundTrip(lib, id, tx, sig, info, stakingTx, outputIndex);
  }

  /** Documents are read in order; the first that cannot be read fails the whole batch. */
  method TransformDocuments(lib: Library, docs: seq<Document>) returns (res: Result<seq<Data>, DecodeError>)
    ensures res.Ok? <==> forall i :: 0 <= i < |docs| ==> DocumentToData(lib, docs[i]).Ok?
    ensures res.Ok? ==> |res.value| == |docs| && forall i :: 0 <= i < |docs| ==> Ok(res.value[i]) == DocumentToData(lib, docs[i])
    ensures res.Err? ==> exists i :: 0 <= i < |docs| && DocumentToData(lib, docs[i]) == Err(res.error)
                                     && forall j :: 0 <= j < i ==> DocumentToData(lib, docs[j]).Ok?
  {
    var list: seq<Data> := [];
    for i := 0 to |docs|
      invariant |list| == i
      invariant forall j :: 0 <= j < i ==> Ok(list[j]) == DocumentToData(lib, docs[j])
    {
      var data := DocumentToData(lib, docs[i]);
      if data.Err? {
        return Err(data.error);
      }
      list := list + [data.value];
    }
    return Ok(list);
  }
}
